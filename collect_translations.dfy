/**
 * The translation-key collector (`collect-translations.js`): it walks the
 * source folder, reads every `.js`, `.jsx`, `.ts` and `.tsx` file, finds
 * each `t('…')` call with the global pattern `t\('([^']+)'\)`, keeps the
 * keys in an insertion-ordered set and writes them one per line. The
 * folder is a parameter: a tree of files with their text, each folder's
 * entries in the order `readdirSync` lists them.
 */
module CollectTranslations {
  import opened Wrappers
  import opened Text

  datatype Node = File(name: string, content: string) | Dir(name: string, items: seq<Node>)

  /** `/\.(js|jsx|ts|tsx)$/.test(item)` */
  predicate IsSourceName(name: string) {
    EndsWith(name, ".js") || EndsWith(name, ".jsx") || EndsWith(name, ".ts") || EndsWith(name, ".tsx")
  }

  /** The end of the run of non-quote characters that starts at `i`. */
  function RunEnd(s: string, i: nat): (j: nat)
    requires i <= |s|
    ensures i <= j <= |s| && (j < |s| ==> s[j] == '\'')
    ensures forall k :: i <= k < j ==> s[k] != '\''
    decreases |s| - i
  {
    if i == |s| || s[i] == '\'' then i else RunEnd(s, i + 1)
  }

  /** Where the key of a match at the start of `s` ends: `t('`, at least
      one non-quote character, then `')`. The greedy `[^']+` can only stop
      at a quote, so backtracking never finds another match. */
  function MatchEnd(s: string): (r: Option<nat>)
    ensures r.Some? ==> 3 < r.value && r.value + 2 <= |s|
  {
    if |s| >= 3 && s[0] == 't' && s[1] == '(' && s[2] == '\'' then
      var j := RunEnd(s, 3);
      if j > 3 && j + 1 < |s| && s[j + 1] == ')' then Some(j) else None
    else None
  }

  /** The keys `regex.exec` finds in `s`, in order: after a match the
      search goes on behind its `')`, otherwise one character further. */
  function Keys(s: string): (r: seq<string>)
    ensures forall k :: 0 <= k < |r| ==> r[k] != [] && '\'' !in r[k]
    decreases |s|
  {
    if s == [] then []
    else
      match MatchEnd(s)
      case Some(j) => [s[3..j]] + Keys(s[j + 2..])
      case None => Keys(s[1..])
  }

  /** A key call is found and the search goes on right after it. */
  lemma KeyCall(key: string, rest: string)
    requires key != [] && '\'' !in key
    ensures Keys("t('" + key + "')" + rest) == [key] + Keys(rest)
  {
    var s := "t('" + key + "')" + rest;
    var j := 3 + |key|;
    assert s[3..j] == key;
    assert s[j] == '\'' && s[j + 1] == ')';
    assert forall k :: 3 <= k < j ==> s[k] == key[k - 3];
    assert RunEnd(s, 3) == j by {
      RunEndAt(s, 3, j);
    }
    assert s[j + 2..] == rest;
  }

  lemma {:induction false} RunEndAt(s: string, i: nat, j: nat)
    requires i <= j < |s| && s[j] == '\'' && forall k :: i <= k < j ==> s[k] != '\''
    ensures RunEnd(s, i) == j
    decreases j - i
  {
    if i < j {
      RunEndAt(s, i + 1, j);
    }
  }

  /** `t('` starts at position `k` of `s`. */
  predicate CallAt(s: string, k: nat) {
    k + 3 <= |s| && s[k] == 't' && s[k + 1] == '(' && s[k + 2] == '\''
  }

  /** Text without `t('` holds no key. */
  lemma {:induction false} NoCallNoKeys(s: string)
    requires forall k: nat :: !CallAt(s, k)
    ensures Keys(s) == []
    decreases |s|
  {
    if s != [] {
      assert !CallAt(s, 0);
      var t := s[1..];
      forall k: nat
        ensures !CallAt(t, k)
      {
        assert !CallAt(s, k + 1);
        if k + 3 <= |t| {
          assert t[k] == s[k + 1] && t[k + 1] == s[k + 2] && t[k + 2] == s[k + 3];
        }
      }
      NoCallNoKeys(t);
    }
  }

  /** The keys of every source file of the tree, in walk order. */
  function TreeKeys(items: seq<Node>): seq<string>
    decreases items
  {
    if items == [] then []
    else NodeKeys(items[0]) + TreeKeys(items[1..])
  }

  function NodeKeys(n: Node): seq<string>
    decreases n
  {
    match n
    case File(name, content) => if IsSourceName(name) then Keys(content) else []
    case Dir(_, items) => TreeKeys(items)
  }

  /** `translations.add(key)`: a key already present keeps its place. */
  function Add(seen: seq<string>, key: string): (r: seq<string>)
    ensures key in r && StartsWithSeq(r, seen)
  {
    if key in seen then seen else seen + [key]
  }

  predicate StartsWithSeq(r: seq<string>, p: seq<string>) {
    |p| <= |r| && r[..|p|] == p
  }

  /** The set after adding the keys one by one. */
  function AddAll(seen: seq<string>, keys: seq<string>): seq<string>
    decreases |keys|
  {
    if keys == [] then seen else AddAll(Add(seen, keys[0]), keys[1..])
  }

  predicate NoDuplicates(s: seq<string>) {
    forall i, j :: 0 <= i < j < |s| ==> s[i] != s[j]
  }

  /** The collected keys are exactly the old ones and the new ones. */
  lemma {:induction false} AddAllMembers(seen: seq<string>, keys: seq<string>, k: string)
    ensures k in AddAll(seen, keys) <==> k in seen || k in keys
    decreases |keys|
  {
    if keys != [] {
      AddAllMembers(Add(seen, keys[0]), keys[1..], k);
      assert keys == [keys[0]] + keys[1..];
    }
  }

  /** A set lists every key once. */
  lemma {:induction false} AddAllNoDuplicates(seen: seq<string>, keys: seq<string>)
    requires NoDuplicates(seen)
    ensures NoDuplicates(AddAll(seen, keys))
    decreases |keys|
  {
    if keys != [] {
      var next := Add(seen, keys[0]);
      assert NoDuplicates(next) by {
        if keys[0] !in seen {
          assert forall i :: 0 <= i < |seen| ==> next[i] == seen[i];
        }
      }
      AddAllNoDuplicates(next, keys[1..]);
    }
  }

  /** Keys already collected keep their place: the set only grows at the
      end, so the output lists keys in the order first seen. */
  lemma {:induction false} AddAllKeepsOrder(seen: seq<string>, keys: seq<string>)
    ensures StartsWithSeq(AddAll(seen, keys), seen)
    decreases |keys|
  {
    if keys != [] {
      var next := Add(seen, keys[0]);
      AddAllKeepsOrder(next, keys[1..]);
      var r := AddAll(seen, keys);
      assert r[..|next|] == next;
      assert r[..|seen|] == r[..|next|][..|seen|];
    }
  }

  lemma {:induction false} AddAllAppend(seen: seq<string>, a: seq<string>, b: seq<string>)
    ensures AddAll(seen, a + b) == AddAll(AddAll(seen, a), b)
    decreases |a|
  {
    if a == [] {
      assert a + b == b;
    } else {
      assert (a + b)[0] == a[0] && (a + b)[1..] == a[1..] + b;
      AddAllAppend(Add(seen, a[0]), a[1..], b);
    }
  }

  /** Adding the next key of a list after the ones before it. */
  lemma AddAllNext(seen: seq<string>, keys: seq<string>, n: nat)
    requires n < |keys|
    ensures AddAll(seen, keys[..n + 1]) == Add(AddAll(seen, keys[..n]), keys[n])
  {
    assert keys[..n + 1] == keys[..n] + [keys[n]];
    AddAllAppend(seen, keys[..n], [keys[n]]);
  }

  /** The `while ((match = regex.exec(content)) !== null)` loop over one
      file's text: the successive results of `regex.exec` are the keys
      `Keys(content)` finds, in order. */
  method ScanContent(content: string, seen: seq<string>) returns (out: seq<string>)
    ensures out == AddAll(seen, Keys(content))
  {
    var matches := Keys(content);
    out := seen;
    var n := 0;
    while n < |matches|
      invariant n <= |matches| && out == AddAll(seen, matches[..n])
    {
      AddAllNext(seen, matches, n);
      out := Add(out, matches[n]);
      n := n + 1;
    }
    assert matches[..n] == matches;
  }

  /** `scanDir`: each entry in order, folders recursively. */
  method ScanDir(items: seq<Node>, seen: seq<string>) returns (out: seq<string>)
    ensures out == AddAll(seen, TreeKeys(items))
    decreases items
  {
    out := seen;
    var i := 0;
    while i < |items|
      invariant 0 <= i <= |items|
      invariant AddAll(out, TreeKeys(items[i..])) == AddAll(seen, TreeKeys(items))
    {
      assert items[i..] == [items[i]] + items[i + 1..];
      assert TreeKeys(items[i..]) == NodeKeys(items[i]) + TreeKeys(items[i + 1..]);
      AddAllAppend(out, NodeKeys(items[i]), TreeKeys(items[i + 1..]));
      var node := items[i];
      if node.Dir? {
        out := ScanDir(node.items, out);
      } else if IsSourceName(node.name) {
        out := ScanContent(node.content, out);
      }
      i := i + 1;
    }
    assert items[i..] == [];
  }

  /** `collectTranslations`: the keys of the source folder, one per line. */
  method CollectTranslations(src: seq<Node>) returns (output: string, keys: seq<string>)
    ensures keys == AddAll([], TreeKeys(src)) && output == Join(keys, "\n")
    ensures NoDuplicates(keys)
    ensures forall k :: k in keys <==> k in TreeKeys(src)
  {
    keys := ScanDir(src, []);
    AddAllNoDuplicates([], TreeKeys(src));
    forall k
      ensures k in keys <==> k in TreeKeys(src)
    {
      AddAllMembers([], TreeKeys(src), k);
    }
    output := Join(keys, "\n");
  }

  /** Keys without line breaks can be read back from the output line by
      line. */
  lemma OutputLines(keys: seq<string>)
    requires keys != [] && forall k :: 0 <= k < |keys| ==> '\n' !in keys[k]
    ensures Split(Join(keys, "\n"), '\n') == keys
  {
    SplitJoin(keys, '\n');
  }

  /** A file that is not a source file contributes nothing, whatever it
      holds. */
  lemma OtherFilesIgnored(name: string, content: string, rest: seq<Node>)
    requires !IsSourceName(name)
    ensures TreeKeys([File(name, content)] + rest) == TreeKeys(rest)
  {
    assert ([File(name, content)] + rest)[1..] == rest;
  }
}
