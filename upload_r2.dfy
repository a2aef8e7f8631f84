/**
 * The storage upload script (`scripts/upload-to-r2.js`): reading `.env`
 * into the environment, the upload log that records what is already in the
 * bucket, the content type sent with each file, the files skipped, and the
 * public address printed for each upload. The file system, the storage
 * client and the clock are outside this model: the folder's files, the
 * log's text, the outcome of each upload and the time stamps are
 * parameters.
 */
module R2Upload {
  import opened Wrappers
  import opened Text
  import Sublists

  // ---------------------------------------------------------------- .env

  predicate IsQuote(c: char) {
    c == '"' || c == '\''
  }

  /** `.replace(/^["']|["']$/g, '')`: one quote removed at the start and one
      at the end; a lone quote is removed once. */
  function StripQuotes(v: string): (r: string)
    ensures |v| - 2 <= |r| <= |v|
    ensures var s := if |v| > 0 && IsQuote(v[0]) then 1 else 0; s + |r| <= |v| && r == v[s..s + |r|]
    ensures |v| >= 2 && IsQuote(v[0]) && IsQuote(v[|v| - 1]) ==> r == v[1..|v| - 1]
    ensures (v == [] || !IsQuote(v[0])) && (v == [] || !IsQuote(v[|v| - 1])) ==> r == v
  {
    var a := if |v| > 0 && IsQuote(v[0]) then v[1..] else v;
    if |a| > 0 && IsQuote(a[|a| - 1]) then a[..|a| - 1] else a
  }

  datatype EnvEntry = EnvEntry(key: string, value: string)

  /** One line of `.env`: blank lines and `#` comments are skipped; the key
      is the text before the first `=`, and the value the rest, `=` signs
      and all, trimmed and unquoted. */
  function EnvLine(line: string): Option<EnvEntry> {
    var t := Trim(line);
    if t == [] || t[0] == '#' then None
    else
      var parts := Split(t, '=');
      if parts[0] == [] || |parts| < 2 then None
      else Some(EnvEntry(Trim(parts[0]), StripQuotes(Trim(Join(parts[1..], "=")))))
  }

  /** `const [key, ...valueParts] = line.split('=')` splits at the first
      `=`: the value keeps any later ones. */
  lemma EnvLineFirstEquals(line: string)
    ensures var t := Trim(line); var i := PieceEnd(t, '=');
      EnvLine(line).Some? <==> (t != [] && t[0] != '#' && 0 < i < |t|)
    ensures var t := Trim(line); var i := PieceEnd(t, '=');
      EnvLine(line).Some? ==> EnvLine(line).value == EnvEntry(Trim(t[..i]), StripQuotes(Trim(t[i + 1..])))
  {
    var t := Trim(line);
    var i := PieceEnd(t, '=');
    if t != [] && t[0] != '#' {
      var parts := Split(t, '=');
      if i < |t| {
        SplitUnfold(t, '=');
        var rest := Split(t[i + 1..], '=');
        assert parts[0] == t[..i] && parts[1..] == rest;
        assert |t[..i]| == i;
        JoinSplit(t[i + 1..], '=');
      } else {
        assert parts == [t];
      }
    }
  }

  /** `!process.env[key]`: absent or empty. */
  predicate Unset(env: map<string, string>, key: string) {
    key !in env || env[key] == ""
  }

  /** The lines of `.env`, each parsed on its own. */
  function EnvEntries(lines: seq<string>): (r: seq<Option<EnvEntry>>)
    ensures |r| == |lines|
  {
    seq(|lines|, k requires 0 <= k < |lines| => EnvLine(lines[k]))
  }

  /** The environment after the parsed lines, and how many variables they
      set: a line sets its key only when the key is still unset. */
  function Load(env: map<string, string>, entries: seq<Option<EnvEntry>>): (r: (map<string, string>, nat))
    ensures r.1 <= |entries|
    ensures env.Keys <= r.0.Keys
    decreases |entries|
  {
    if entries == [] then (env, 0)
    else
      var e := entries[0];
      if e.Some? && Unset(env, e.value.key) then
        var t := Load(env[e.value.key := e.value.value], entries[1..]);
        (t.0, t.1 + 1)
      else Load(env, entries[1..])
  }

  /** A variable already set to something is never overwritten. */
  lemma {:induction false} NeverOverwrites(env: map<string, string>, entries: seq<Option<EnvEntry>>, key: string)
    requires key in env && env[key] != ""
    ensures key in Load(env, entries).0 && Load(env, entries).0[key] == env[key]
    decreases |entries|
  {
    if entries != [] {
      var e := entries[0];
      if e.Some? && Unset(env, e.value.key) {
        NeverOverwrites(env[e.value.key := e.value.value], entries[1..], key);
      } else {
        NeverOverwrites(env, entries[1..], key);
      }
    }
  }

  /** Every variable the lines set comes from one of them. */
  lemma {:induction false} SetFromSomeLine(env: map<string, string>, entries: seq<Option<EnvEntry>>, key: string)
    requires key in Load(env, entries).0 && (key !in env || Load(env, entries).0[key] != env[key])
    ensures exists k :: 0 <= k < |entries| && entries[k] == Some(EnvEntry(key, Load(env, entries).0[key]))
    decreases |entries|
  {
    var r := Load(env, entries).0;
    var e := entries[0];
    var tail := entries[1..];
    if e.Some? && Unset(env, e.value.key) {
      var env' := env[e.value.key := e.value.value];
      if key == e.value.key && r[key] == e.value.value {
        assert entries[0] == Some(EnvEntry(key, r[key]));
      } else {
        if key == e.value.key {
          assert key in env' && r[key] != env'[key];
        }
        SetFromSomeLine(env', tail, key);
        var k :| 0 <= k < |tail| && tail[k] == Some(EnvEntry(key, r[key]));
        assert entries[k + 1] == tail[k];
      }
    } else {
      SetFromSomeLine(env, tail, key);
      var k :| 0 <= k < |tail| && tail[k] == Some(EnvEntry(key, r[key]));
      assert entries[k + 1] == tail[k];
    }
  }

  /** One line of the run. */
  lemma LoadStep(env: map<string, string>, entries: seq<Option<EnvEntry>>)
    requires entries != []
    ensures var e := entries[0];
      Load(env, entries) == if e.Some? && Unset(env, e.value.key)
        then (Load(env[e.value.key := e.value.value], entries[1..]).0, Load(env[e.value.key := e.value.value], entries[1..]).1 + 1)
        else Load(env, entries[1..])
  {
  }

  /** The `.env` reading at the top of the script, over the file's text. */
  method LoadEnv(content: string, env0: map<string, string>) returns (env: map<string, string>, loaded: nat)
    ensures (env, loaded) == Load(env0, EnvEntries(Split(content, '\n')))
  {
    var lines := Split(content, '\n');
    ghost var entries := EnvEntries(lines);
    env := env0;
    loaded := 0;
    for i := 0 to |lines|
      invariant Load(env, entries[i..]).0 == Load(env0, entries).0
      invariant Load(env, entries[i..]).1 + loaded == Load(env0, entries).1
    {
      assert entries[i..][1..] == entries[i + 1..] && entries[i..][0] == entries[i];
      LoadStep(env, entries[i..]);
      var e := EnvLine(lines[i]);
      assert e == entries[i];
      if e.Some? && Unset(env, e.value.key) {
        env := env[e.value.key := e.value.value];
        loaded := loaded + 1;
      }
    }
    assert entries[|lines|..] == [];
  }

  /** The storage settings the script runs with. */
  datatype Config = Config(accountId: string, accessKeyId: string, secretAccessKey: string,
                           bucketName: string, publicUrl: string)

  /** `process.env.X || ''` */
  function EnvValue(env: map<string, string>, key: string): string {
    if key in env then env[key] else ""
  }

  /** The settings, or `None` when one of the four required ones is empty
      and the script stops. */
  function ReadConfig(env: map<string, string>): (r: Option<Config>)
    ensures r.Some? <==> (EnvValue(env, "R2_ACCOUNT_ID") != "" && EnvValue(env, "R2_ACCESS_KEY_ID") != ""
      && EnvValue(env, "R2_SECRET_ACCESS_KEY") != "" && EnvValue(env, "R2_BUCKET_NAME") != "")
    ensures r.Some? ==> r.value.publicUrl == EnvValue(env, "R2_PUBLIC_URL")
  {
    var c := Config(EnvValue(env, "R2_ACCOUNT_ID"), EnvValue(env, "R2_ACCESS_KEY_ID"),
                    EnvValue(env, "R2_SECRET_ACCESS_KEY"), EnvValue(env, "R2_BUCKET_NAME"),
                    EnvValue(env, "R2_PUBLIC_URL"));
    if c.accountId == "" || c.accessKeyId == "" || c.secretAccessKey == "" || c.bucketName == "" then None
    else Some(c)
  }

  /** Settings given in the environment win over `.env`: a complete
      environment stays complete, with the same four values. */
  lemma EnvironmentWins(env: map<string, string>, entries: seq<Option<EnvEntry>>)
    requires ReadConfig(env).Some?
    ensures ReadConfig(Load(env, entries).0).Some?
    ensures var c := ReadConfig(Load(env, entries).0).value;
      c.(publicUrl := "") == ReadConfig(env).value.(publicUrl := "")
  {
    NeverOverwrites(env, entries, "R2_ACCOUNT_ID");
    NeverOverwrites(env, entries, "R2_ACCESS_KEY_ID");
    NeverOverwrites(env, entries, "R2_SECRET_ACCESS_KEY");
    NeverOverwrites(env, entries, "R2_BUCKET_NAME");
  }

  // ----------------------------------------------------------- the log

  /** The path a log line records: a line that is not blank or a comment
      and has at least two `|` fields gives its first field. */
  function LogEntry(line: string): Option<string> {
    var t := Trim(line);
    if t == [] || t[0] == '#' then None
    else
      var parts := Split(t, '|');
      if |parts| >= 2 then Some(parts[0]) else None
  }

  /** The lines of the log, each parsed on its own. */
  function LogEntries(lines: seq<string>): (r: seq<Option<string>>)
    ensures |r| == |lines|
  {
    seq(|lines|, k requires 0 <= k < |lines| => LogEntry(lines[k]))
  }

  lemma LogEntriesAppend(a: seq<string>, b: seq<string>)
    ensures LogEntries(a + b) == LogEntries(a) + LogEntries(b)
  {
    var l := LogEntries(a + b);
    var r := LogEntries(a) + LogEntries(b);
    forall k | 0 <= k < |l|
      ensures l[k] == r[k]
    {
      if k < |a| {
        assert (a + b)[k] == a[k];
      } else {
        assert (a + b)[k] == b[k - |a|];
      }
    }
  }

  /** The recorded paths of the parsed lines. */
  function Logged(entries: seq<Option<string>>): set<string>
    decreases |entries|
  {
    if entries == [] then {}
    else (if entries[0].Some? then {entries[0].value} else {}) + Logged(entries[1..])
  }

  lemma {:induction false} LoggedAppend(a: seq<Option<string>>, b: seq<Option<string>>)
    ensures Logged(a + b) == Logged(a) + Logged(b)
    decreases |a|
  {
    if a == [] {
      assert a + b == b;
    } else {
      assert (a + b)[1..] == a[1..] + b;
      LoggedAppend(a[1..], b);
    }
  }

  /** A path is logged exactly when some line records it. */
  lemma {:induction false} LoggedMembers(entries: seq<Option<string>>, p: string)
    ensures p in Logged(entries) <==> exists k :: 0 <= k < |entries| && entries[k] == Some(p)
    decreases |entries|
  {
    if entries != [] {
      LoggedMembers(entries[1..], p);
      assert forall k :: 1 <= k < |entries| ==> entries[k] == entries[1..][k - 1];
      if p in Logged(entries[1..]) {
        var k :| 0 <= k < |entries[1..]| && entries[1..][k] == Some(p);
        assert entries[k + 1] == Some(p);
      }
    }
  }

  /** The paths of the log's text (`getUploadedFiles`). */
  function LoggedSet(log: string): set<string> {
    Logged(LogEntries(Split(log, '\n')))
  }

  /** `getUploadedFiles`: a missing log names nothing. */
  method UploadedFiles(log: Option<string>) returns (uploaded: set<string>)
    ensures log == None ==> uploaded == {}
    ensures log.Some? ==> uploaded == LoggedSet(log.value)
  {
    uploaded := {};
    if log.None? {
      return;
    }
    var lines := Split(log.value, '\n');
    for i := 0 to |lines|
      invariant uploaded == Logged(LogEntries(lines)[..i])
    {
      var entry := LogEntry(lines[i]);
      LoggedNext(lines, i);
      if entry.Some? {
        uploaded := uploaded + {entry.value};
      }
    }
    LoggedAll(lines);
  }

  /** One more parsed line adds at most its own path. */
  lemma LoggedNext(lines: seq<string>, i: nat)
    requires i < |lines|
    ensures var e := LogEntry(lines[i]);
      Logged(LogEntries(lines)[..i + 1]) == Logged(LogEntries(lines)[..i]) + (if e.Some? then {e.value} else {})
  {
    var entries := LogEntries(lines);
    assert entries[..i + 1] == entries[..i] + [entries[i]];
    LoggedAppend(entries[..i], [entries[i]]);
    assert [entries[i]][1..] == [];
  }

  lemma LoggedAll(lines: seq<string>)
    ensures Logged(LogEntries(lines)[..|lines|]) == Logged(LogEntries(lines))
  {
    assert LogEntries(lines)[..|lines|] == LogEntries(lines);
  }

  /** `${relativePath}|${r2Path}|${timestamp}\n` */
  function LogLine(relativePath: string, r2Path: string, timestamp: string): (r: string)
    ensures |r| > 0 && r[|r| - 1] == '\n'
  {
    relativePath + "|" + r2Path + "|" + timestamp + "\n"
  }

  /** A path the log can record and give back: not blank at the start, not
      a comment, and free of the field and line separators. */
  predicate Loggable(p: string) {
    p != [] && !IsSpace(p[0]) && p[0] != '#' && '|' !in p && '\n' !in p
  }

  /** An ISO time stamp: no white space. */
  predicate Stamp(ts: string) {
    ts != [] && NoSpace(ts)
  }

  /** A log line gives back the path it records. */
  lemma LogLineRoundTrip(rel: string, key: string, ts: string)
    requires Loggable(rel) && '\n' !in key && Stamp(ts)
    ensures LogEntry(rel + "|" + key + "|" + ts) == Some(rel)
  {
    var line := rel + "|" + key + "|" + ts;
    assert line[0] == rel[0] && line[|line| - 1] == ts[|ts| - 1];
    TrimOfUnpadded(line);
    var rest := key + "|" + ts;
    assert line == rel + ['|'] + rest;
    SplitAtFirst(rel, '|', rest);
  }

  /** Log text as the script leaves it: empty or ending with a line break. */
  predicate LogText(c: string) {
    c == [] || c[|c| - 1] == '\n'
  }

  /** Appending a line to such a text adds one piece before the empty last
      one. */
  lemma SplitAppendLine(c: string, x: string)
    requires LogText(c) && '\n' !in x
    ensures var p := Split(c, '\n'); Split(c + x + ['\n'], '\n') == p[..|p| - 1] + [x, []]
  {
    LineSplit(x);
    if c == [] {
      assert c + x + ['\n'] == x + ['\n'];
    } else {
      var d := c[..|c| - 1];
      assert c == d + ['\n'];
      assert c + x + ['\n'] == d + ['\n'] + x + ['\n'];
      AfterBreak(d, x);
    }
  }

  /** A line with its break is one piece and the empty piece after it. */
  lemma LineSplit(x: string)
    requires '\n' !in x
    ensures Split(x + ['\n'], '\n') == [x, []]
  {
    SplitAtFirst(x, '\n', []);
    assert x + ['\n'] + [] == x + ['\n'];
    assert Split([], '\n') == [[]];
  }

  lemma AfterBreak(d: string, x: string)
    ensures var p := Split(d + ['\n'], '\n');
      Split(d + ['\n'] + x + ['\n'], '\n') == p[..|p| - 1] + Split(x + ['\n'], '\n')
  {
    var p := Split(d + ['\n'], '\n');
    assert p == Split(d, '\n') + [[]] by {
      SplitConcat(d, '\n', []);
      assert d + ['\n'] + [] == d + ['\n'];
      assert Split([], '\n') == [[]];
    }
    assert p[..|p| - 1] == Split(d, '\n');
    SplitConcat(d, '\n', x + ['\n']);
    assert d + ['\n'] + x + ['\n'] == d + ['\n'] + (x + ['\n']);
  }

  /** The last piece of such a text is empty. */
  lemma LastPieceEmpty(c: string)
    requires LogText(c)
    ensures var p := Split(c, '\n'); p == p[..|p| - 1] + [[]]
  {
    if c != [] {
      var d := c[..|c| - 1];
      assert c == d + ['\n'] + [];
      SplitConcat(d, '\n', []);
    }
  }

  /** Logging an upload adds its path to what the next run sees, and
      nothing else. */
  lemma AppendEntry(c: string, rel: string, key: string, ts: string)
    requires LogText(c) && Loggable(rel) && '\n' !in key && Stamp(ts)
    ensures LogText(c + LogLine(rel, key, ts))
    ensures LoggedSet(c + LogLine(rel, key, ts)) == LoggedSet(c) + {rel}
  {
    var x := rel + "|" + key + "|" + ts;
    assert c + LogLine(rel, key, ts) == c + x + ['\n'];
    LineHasNoBreak(rel, key, ts);
    var p := Split(c, '\n');
    var q := p[..|p| - 1];
    SplitAppendLine(c, x);
    LastPieceEmpty(c);
    LogLineRoundTrip(rel, key, ts);
    LoggedPieces(q, x, rel);
  }

  /** A log line holds no line break. */
  lemma LineHasNoBreak(rel: string, key: string, ts: string)
    requires Loggable(rel) && '\n' !in key && Stamp(ts)
    ensures '\n' !in rel + "|" + key + "|" + ts
  {
    var x := rel + "|" + key + "|" + ts;
    forall j | 0 <= j < |x|
      ensures x[j] != '\n'
    {
      if j < |rel| {
        assert x[j] == rel[j];
      } else if j == |rel| {
      } else if j < |rel| + 1 + |key| {
        assert x[j] == key[j - |rel| - 1];
      } else if j == |rel| + 1 + |key| {
      } else {
        assert x[j] == ts[j - |rel| - 2 - |key|];
      }
    }
  }

  /** The pieces before the last line, then the line and the empty piece
      after its break, record the line's path besides the earlier ones. */
  lemma LoggedPieces(q: seq<string>, x: string, rel: string)
    requires LogEntry(x) == Some(rel)
    ensures Logged(LogEntries(q + [x, []])) == Logged(LogEntries(q + [[]])) + {rel}
  {
    var none: seq<Option<string>> := [None];
    var e := LogEntries(q);
    assert LogEntries(q + [[]]) == e + none by {
      LogEntriesAppend(q, [[]]);
      assert LogEntry([]) == None;
    }
    assert LogEntries(q + [x, []]) == e + ([Some(rel)] + none) by {
      LogEntriesAppend(q, [x, []]);
      assert LogEntry([]) == None;
    }
    LoggedTail(e, rel);
  }

  lemma LoggedTail(e: seq<Option<string>>, rel: string)
    ensures Logged(e + ([Some(rel)] + [None])) == Logged(e + [None]) + {rel}
  {
    var none: seq<Option<string>> := [None];
    LoggedAppend(e, none);
    LoggedAppend(e, [Some(rel)] + none);
    assert Logged(none) == {} by {
      assert none[1..] == [];
    }
    assert Logged([Some(rel)] + none) == {rel} by {
      assert ([Some(rel)] + none)[1..] == none;
    }
  }

  // ------------------------------------------------------- the files

  /** `path.basename`: the part after the last `/`. */
  function Basename(p: string): (r: string)
    ensures '/' !in r && EndsWith(p, r)
  {
    p[LastIndexOf(p, '/') + 1..]
  }

  /** `.replace(/\\/g, '/')` */
  function Normalise(p: string): (r: string)
    ensures |r| == |p| && '\\' !in r
    ensures forall i :: 0 <= i < |p| ==> r[i] == (if p[i] == '\\' then '/' else p[i])
  {
    if p == [] then [] else [if p[0] == '\\' then '/' else p[0]] + Normalise(p[1..])
  }

  /** `shouldSkipFile`: the log itself and the usual system files. */
  const SkipNames: seq<string> := ["upload-log.txt", ".DS_Store", "Thumbs.db", ".gitkeep", ".gitignore"]

  predicate ShouldSkip(fileName: string) {
    fileName in SkipNames
  }

  predicate ToUpload(uploaded: set<string>, file: string) {
    !ShouldSkip(Basename(file)) && Normalise(file) !in uploaded
  }

  /** `filesToUpload`: the folder's files, given by their paths inside it,
      that are not skipped and whose path is not in the log. */
  function FilesToUpload(files: seq<string>, uploaded: set<string>): (r: seq<string>)
    ensures Sublists.Subsequence(r, files)
    ensures forall k :: 0 <= k < |r| ==> r[k] in files && ToUpload(uploaded, r[k])
    ensures forall k :: 0 <= k < |files| && ToUpload(uploaded, files[k]) ==> files[k] in r
  {
    Sublists.Filter((f: string) => ToUpload(uploaded, f), files)
  }

  /** The log file in the folder is never uploaded. */
  lemma LogFileNeverUploaded(files: seq<string>, uploaded: set<string>, p: string)
    requires Basename(p) == "upload-log.txt"
    ensures p !in FilesToUpload(files, uploaded)
  {
    assert ShouldSkip(Basename(p));
  }

  /** The outcome of one upload: its file, whether the storage accepted it,
      and the time stamp logged with it. */
  datatype Attempt = Attempt(file: string, succeeded: bool, stamp: string)

  /** The lines the attempts add to the log: the successes, in order. */
  function Entries(attempts: seq<Attempt>): string
    decreases |attempts|
  {
    if attempts == [] then []
    else
      var a := attempts[0];
      var rel := Normalise(a.file);
      (if a.succeeded then LogLine(rel, rel, a.stamp) else []) + Entries(attempts[1..])
  }

  function Successes(attempts: seq<Attempt>): nat
    ensures Successes(attempts) <= |attempts|
    decreases |attempts|
  {
    if attempts == [] then 0 else (if attempts[0].succeeded then 1 else 0) + Successes(attempts[1..])
  }

  /** The upload loop of `main`: each success is logged and counted, each
      failure only counted. */
  method UploadAll(attempts: seq<Attempt>, log0: string) returns (log: string, successCount: nat, failCount: nat)
    ensures log == log0 + Entries(attempts)
    ensures successCount == Successes(attempts) && successCount + failCount == |attempts|
  {
    log := log0;
    successCount := 0;
    failCount := 0;
    for i := 0 to |attempts|
      invariant log + Entries(attempts[i..]) == log0 + Entries(attempts)
      invariant successCount + Successes(attempts[i..]) == Successes(attempts)
      invariant successCount + failCount == i
    {
      assert attempts[i..][1..] == attempts[i + 1..];
      var a := attempts[i];
      var rel := Normalise(a.file);
      if a.succeeded {
        log := log + LogLine(rel, rel, a.stamp);
        successCount := successCount + 1;
      } else {
        failCount := failCount + 1;
      }
    }
    assert attempts[|attempts|..] == [];
  }

  predicate Recordable(a: Attempt) {
    Loggable(Normalise(a.file)) && Stamp(a.stamp)
  }

  /** The paths of the attempts that succeeded. */
  function SucceededPaths(attempts: seq<Attempt>): set<string>
    decreases |attempts|
  {
    if attempts == [] then {}
    else (if attempts[0].succeeded then {Normalise(attempts[0].file)} else {}) + SucceededPaths(attempts[1..])
  }

  /** A path succeeded exactly when some successful attempt has it. */
  lemma {:induction false} SucceededPathsMembers(attempts: seq<Attempt>, p: string)
    ensures p in SucceededPaths(attempts) <==>
      exists k :: 0 <= k < |attempts| && attempts[k].succeeded && Normalise(attempts[k].file) == p
    decreases |attempts|
  {
    if attempts != [] {
      var tail := attempts[1..];
      SucceededPathsMembers(tail, p);
      if p in SucceededPaths(tail) {
        var k :| 0 <= k < |tail| && tail[k].succeeded && Normalise(tail[k].file) == p;
        assert attempts[k + 1] == tail[k];
      }
      if exists k :: 0 <= k < |attempts| && attempts[k].succeeded && Normalise(attempts[k].file) == p {
        var k :| 0 <= k < |attempts| && attempts[k].succeeded && Normalise(attempts[k].file) == p;
        if k > 0 {
          assert tail[k - 1] == attempts[k];
        }
      }
    }
  }

  /** The next run sees the old log's paths and those of the successes. */
  lemma {:induction false} LoggedAfter(log0: string, attempts: seq<Attempt>)
    requires LogText(log0)
    requires forall k :: 0 <= k < |attempts| ==> Recordable(attempts[k])
    ensures LogText(log0 + Entries(attempts))
    ensures LoggedSet(log0 + Entries(attempts)) == LoggedSet(log0) + SucceededPaths(attempts)
    decreases |attempts|
  {
    if attempts == [] {
      assert log0 + Entries(attempts) == log0;
    } else {
      var a := attempts[0];
      var rel := Normalise(a.file);
      var line := if a.succeeded then LogLine(rel, rel, a.stamp) else [];
      var c := log0 + line;
      var mine: set<string> := if a.succeeded then {rel} else {};
      assert LoggedSet(c) == LoggedSet(log0) + mine by {
        if a.succeeded {
          AppendEntry(log0, rel, rel, a.stamp);
        } else {
          assert c == log0;
        }
      }
      assert LogText(c) by {
        if a.succeeded {
          AppendEntry(log0, rel, rel, a.stamp);
        } else {
          assert c == log0;
        }
      }
      var tail := attempts[1..];
      var rest := Entries(tail);
      assert LogText(c + rest) && LoggedSet(c + rest) == LoggedSet(c) + SucceededPaths(tail) by {
        assert forall k :: 0 <= k < |tail| ==> tail[k] == attempts[k + 1];
        LoggedAfter(c, tail);
      }
      assert SucceededPaths(attempts) == mine + SucceededPaths(tail);
      assert log0 + Entries(attempts) == c + rest by {
        assert Entries(attempts) == line + rest;
        AppendAssoc(log0, line, rest);
      }
    }
  }

  lemma AppendAssoc(a: string, b: string, c: string)
    ensures a + (b + c) == (a + b) + c
  {
  }

  /** A rerun skips what succeeded and tries again what failed, unless
      another file with the same path succeeded. */
  lemma RerunSkipsSuccesses(log0: string, attempts: seq<Attempt>, files: seq<string>, k: nat)
    requires LogText(log0) && k < |attempts|
    requires forall j :: 0 <= j < |attempts| ==> Recordable(attempts[j])
    ensures attempts[k].succeeded ==> attempts[k].file !in FilesToUpload(files, LoggedSet(log0 + Entries(attempts)))
    ensures !attempts[k].succeeded && ToUpload(LoggedSet(log0), attempts[k].file) && attempts[k].file in files
      && (forall j :: 0 <= j < |attempts| && attempts[j].succeeded ==> Normalise(attempts[j].file) != Normalise(attempts[k].file))
      ==> attempts[k].file in FilesToUpload(files, LoggedSet(log0 + Entries(attempts)))
  {
    LoggedAfter(log0, attempts);
    SucceededPathsMembers(attempts, Normalise(attempts[k].file));
    var f := attempts[k].file;
    if f in files {
      var i :| 0 <= i < |files| && files[i] == f;
    }
  }

  // ------------------------------------------------------ content type

  /** `path.extname`: from the last `.` of the base name, unless that dot
      starts the name or the name is `..`. */
  function Extname(p: string): (r: string)
    ensures r == [] || (r[0] == '.' && EndsWith(p, r))
  {
    var b := Basename(p);
    var d := LastIndexOf(b, '.');
    if d <= 0 || b == ".." then [] else b[d..]
  }

  const DefaultContentType := "application/octet-stream"

  const ContentTypes: map<string, string> := map[
    ".jpg" := "image/jpeg", ".jpeg" := "image/jpeg", ".png" := "image/png", ".gif" := "image/gif",
    ".webp" := "image/webp", ".svg" := "image/svg+xml", ".mp3" := "audio/mpeg", ".mp4" := "video/mp4",
    ".wav" := "audio/wav", ".pdf" := "application/pdf", ".json" := "application/json",
    ".txt" := "text/plain", ".html" := "text/html", ".css" := "text/css",
    ".js" := "application/javascript", ".ts" := "application/typescript"
  ]

  /** `getContentType(filePath)` */
  function ContentType(filePath: string): (r: string)
    ensures ToLower(Extname(filePath)) in ContentTypes ==> r == ContentTypes[ToLower(Extname(filePath))]
    ensures ToLower(Extname(filePath)) !in ContentTypes ==> r == DefaultContentType
  {
    var ext := ToLower(Extname(filePath));
    if ext in ContentTypes then ContentTypes[ext] else DefaultContentType
  }

  /** The extension's case does not matter. */
  lemma UpperCasePng(stem: string)
    requires '/' !in stem && '.' !in stem && stem != []
    ensures ContentType(stem + ".PNG") == "image/png"
  {
    ExtnameOfStem(stem, "PNG");
    assert stem + "." + "PNG" == stem + ".PNG";
    PngLookup();
  }

  lemma PngLookup()
    ensures ToLower(".PNG") == ".png"
    ensures ".png" in ContentTypes && ContentTypes[".png"] == "image/png"
  {
  }

  /** A plain name with one extension has that extension. */
  lemma ExtnameOfStem(stem: string, ext: string)
    requires '/' !in stem && '.' !in stem && stem != [] && '/' !in ext && '.' !in ext
    ensures Extname(stem + "." + ext) == "." + ext
  {
    var p := stem + "." + ext;
    BasenameWhole(p);
    LastDotJoined(stem, ext);
    assert p[0] == stem[0];
    assert p[|stem|..] == "." + ext;
  }

  /** A path without a slash is its own base name. */
  lemma BasenameWhole(p: string)
    requires '/' !in p
    ensures Basename(p) == p
  {
    assert p[0..] == p;
  }

  /** The dot between a stem and an extension without dots is the last one. */
  lemma LastDotJoined(stem: string, ext: string)
    requires '.' !in stem && '.' !in ext
    ensures LastIndexOf(stem + "." + ext, '.') == |stem|
  {
    var p := stem + "." + ext;
    assert p[|stem|] == '.';
    forall k | 0 <= k < |p| && k != |stem|
      ensures p[k] != '.'
    {
      if k < |stem| {
        assert p[k] == stem[k];
      } else {
        assert p[k] == ext[k - |stem| - 1];
      }
    }
  }

  /** A name without an extension, or a dot file, gets the default type. */
  lemma NoExtensionDefault(filePath: string)
    requires '.' !in Basename(filePath) || (Basename(filePath)[0] == '.' && '.' !in Basename(filePath)[1..])
    ensures ContentType(filePath) == DefaultContentType
  {
    var b := Basename(filePath);
    if '.' in b {
      assert forall j :: 0 < j < |b| ==> b[j] == b[1..][j - 1];
    }
  }

  // ------------------------------------------------------ public URL

  /** `.replace(/\/+/g, '/')`: every run of slashes becomes one. */
  function CollapseSlashes(s: string): (r: string)
    ensures |r| <= |s| && (r == [] <==> s == []) && (s != [] ==> r[0] == s[0])
    ensures forall i :: 0 <= i < |r| - 1 ==> !(r[i] == '/' && r[i + 1] == '/')
    decreases |s|
  {
    if s == [] then []
    else if |s| >= 2 && s[0] == '/' && s[1] == '/' then CollapseSlashes(s[1..])
    else [s[0]] + CollapseSlashes(s[1..])
  }

  lemma {:induction false} CollapsePrefix(p: string, s: string)
    requires '/' !in p
    ensures CollapseSlashes(p + s) == p + CollapseSlashes(s)
    decreases |p|
  {
    if p != [] {
      assert (p + s)[1..] == p[1..] + s;
      CollapsePrefix(p[1..], s);
    } else {
      assert p + s == s;
    }
  }

  /** The address printed for an upload, as the script builds it. */
  function PublicUrlAsWritten(config: Config, key: string): string {
    if config.publicUrl != "" then CollapseSlashes(config.publicUrl + "/" + key)
    else "https://" + config.accountId + ".r2.cloudflarestorage.com/" + config.bucketName + "/" + key
  }

  /** The collapse also eats the `//` after the scheme: a public address
      `https://host` gives `https:/host/...`. */
  lemma SchemeSlashLost(config: Config, scheme: string, rest: string, key: string)
    requires '/' !in scheme && rest != [] && rest[0] != '/'
    requires config.publicUrl == scheme + "://" + rest
    ensures StartsWith(PublicUrlAsWritten(config, key), scheme + ":/" + [rest[0]])
  {
    var tail := rest + "/" + key;
    assert config.publicUrl + "/" + key == (scheme + ":") + ("//" + tail);
    CollapsePrefix(scheme + ":", "//" + tail);
    assert ("//" + tail)[1..] == "/" + tail;
    assert ("/" + tail)[1..] == tail;
    assert CollapseSlashes("/" + tail) == "/" + CollapseSlashes(tail);
  }

  function TrimTrailingSlashes(s: string): (r: string)
    ensures StartsWith(s, r) && (r == [] || r[|r| - 1] != '/')
    ensures forall i :: |r| <= i < |s| ==> s[i] == '/'
    decreases |s|
  {
    if s != [] && s[|s| - 1] == '/' then TrimTrailingSlashes(s[..|s| - 1]) else s
  }

  function TrimLeadingSlashes(s: string): (r: string)
    ensures EndsWith(s, r) && (r == [] || r[0] != '/')
    ensures forall i :: 0 <= i < |s| - |r| ==> s[i] == '/'
    decreases |s|
  {
    if s != [] && s[0] == '/' then TrimLeadingSlashes(s[1..]) else s
  }

  /** The address as intended: one slash between the public address and the
      key, everything else as given. */
  function PublicUrl(config: Config, key: string): (r: string)
    ensures config.publicUrl != "" ==>
      r == TrimTrailingSlashes(config.publicUrl) + "/" + TrimLeadingSlashes(key)
  {
    if config.publicUrl != "" then TrimTrailingSlashes(config.publicUrl) + "/" + TrimLeadingSlashes(key)
    else "https://" + config.accountId + ".r2.cloudflarestorage.com/" + config.bucketName + "/" + key
  }

  /** The public address keeps its scheme and host, and exactly one slash
      joins it to the key. */
  lemma PublicUrlKeepsBase(config: Config, key: string)
    requires config.publicUrl != ""
    ensures var base := TrimTrailingSlashes(config.publicUrl); var r := PublicUrl(config, key);
      StartsWith(r, base) && r[|base|] == '/' && (|r| > |base| + 1 ==> r[|base| + 1] != '/')
      && (base == [] || base[|base| - 1] != '/')
  {
    var base := TrimTrailingSlashes(config.publicUrl);
    var r := PublicUrl(config, key);
    assert r[..|base|] == base;
    var k := TrimLeadingSlashes(key);
    if |r| > |base| + 1 {
      assert r[|base| + 1] == k[0];
    }
  }

  /** In particular `https://host` keeps its `//`. */
  lemma SchemeSlashKept(config: Config, scheme: string, host: string, key: string)
    requires config.publicUrl == scheme + "://" + host && host != [] && host[|host| - 1] != '/'
    ensures StartsWith(PublicUrl(config, key), scheme + "://" + host)
  {
    assert TrimTrailingSlashes(config.publicUrl) == config.publicUrl;
    PublicUrlKeepsBase(config, key);
  }
}
