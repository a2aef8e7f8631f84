/**
 * The Fisher-Yates `shuffleArray` that every game copies into its own file:
 * a copy of the input is shuffled in place by swapping position `i` with a
 * position `j <= i` chosen by `Math.random`, for `i` from the end down to 1.
 * The choice of `j` is left open, so what is proved holds for every choice.
 */
module Shuffle {

  /** The shuffled copy is a permutation of the input. */
  method Shuffle<T(==)>(s: seq<T>) returns (r: seq<T>)
    ensures |r| == |s|
    ensures multiset(r) == multiset(s)
  {
    if |s| == 0 {
      return [];
    }
    var a := new T[|s|](k requires 0 <= k < |s| => s[k]);
    assert a[..] == s;
    var i := a.Length - 1;
    while i > 0
      invariant 0 <= i < a.Length
      invariant multiset(a[..]) == multiset(s)
    {
      var j :| 0 <= j <= i;
      ghost var before := a[..];
      a[i], a[j] := a[j], a[i];
      assert a[..] == before[i := before[j]][j := before[i]];
      SwapPermutes(before, i, j);
      i := i - 1;
    }
    r := a[..];
  }

  /** Exchanging two entries keeps the multiset of elements. */
  lemma SwapPermutes<T>(s: seq<T>, i: nat, j: nat)
    requires i < |s| && j < |s|
    ensures multiset(s[i := s[j]][j := s[i]]) == multiset(s)
  {
    var t := s[i := s[j]];
    assert multiset(t) == multiset(s) - multiset{s[i]} + multiset{s[j]};
    assert multiset(t[j := s[i]]) == multiset(t) - multiset{t[j]} + multiset{s[i]};
  }

  /** `shuffled.slice(0, n)` of a shuffled copy: `min(n, |s|)` elements, all
      drawn from the input without repetition. */
  method ShuffleTake<T(==)>(s: seq<T>, n: nat) returns (r: seq<T>)
    ensures |r| == if n < |s| then n else |s|
    ensures multiset(r) <= multiset(s)
  {
    var all := Shuffle(s);
    r := if n < |all| then all[..n] else all;
    assert all == r + all[|r|..];
    assert multiset(all) == multiset(r) + multiset(all[|r|..]);
  }

  /** `s.map(f)` */
  function MapSeq<T, U>(f: T -> U, s: seq<T>): (r: seq<U>)
    ensures |r| == |s|
  {
    if s == [] then [] else [f(s[0])] + MapSeq(f, s[1..])
  }

  lemma MapAppend<T, U>(f: T -> U, a: seq<T>, b: seq<T>)
    ensures MapSeq(f, a + b) == MapSeq(f, a) + MapSeq(f, b)
  {
    if a != [] {
      assert (a + b)[0] == a[0];
      assert (a + b)[1..] == a[1..] + b;
      MapAppend(f, a[1..], b);
      assert MapSeq(f, a + b) == [f(a[0])] + MapSeq(f, a[1..] + b);
      assert MapSeq(f, a) == [f(a[0])] + MapSeq(f, a[1..]);
    } else {
      assert a + b == b;
    }
  }

  /** Mapping with one element taken out of the middle takes its image out. */
  lemma MapSplit<T, U>(f: T -> U, left: seq<T>, x: T, right: seq<T>)
    ensures multiset(MapSeq(f, left + ([x] + right))) == multiset(MapSeq(f, left + right)) + multiset{f(x)}
  {
    MapAppend(f, left, [x] + right);
    MapAppend(f, [x], right);
    MapAppend(f, left, right);
    assert MapSeq(f, [x]) == [f(x)];
  }

  /** Mapping a permutation gives a permutation of the mapped sequence. */
  lemma {:induction false} MapPermute<T, U>(f: T -> U, a: seq<T>, b: seq<T>)
    requires multiset(a) == multiset(b)
    ensures multiset(MapSeq(f, a)) == multiset(MapSeq(f, b))
    decreases |a|
  {
    if a != [] {
      var j := FindIn(a[0], b);
      var left, right := b[..j], b[j + 1..];
      TakeOut(a, b, j);
      MapPermute(f, a[1..], left + right);
      MapSplit(f, left, b[j], right);
      MapHead(f, a);
      assert left + ([b[j]] + right) == b;
      assert multiset(MapSeq(f, a)) == multiset{f(a[0])} + multiset(MapSeq(f, left + right));
    }
  }

  /** A position of `x` in `b`, which holds a copy of it. */
  lemma FindIn<T>(x: T, b: seq<T>) returns (j: nat)
    requires x in multiset(b)
    ensures j < |b| && b[j] == x
  {
    assert x in b;
    j :| 0 <= j < |b| && b[j] == x;
  }

  /** Taking the first element out of `a` and a copy of it out of a
      permutation `b` leaves permutations. */
  lemma TakeOut<T>(a: seq<T>, b: seq<T>, j: nat)
    requires multiset(a) == multiset(b) && a != [] && j < |b| && b[j] == a[0]
    ensures multiset(a[1..]) == multiset(b[..j] + b[j + 1..])
  {
    var left, right := b[..j], b[j + 1..];
    assert b == left + [b[j]] + right;
    assert multiset(left + right) == multiset(b) - multiset{b[j]};
    assert a == [a[0]] + a[1..];
    assert multiset(a[1..]) == multiset(a) - multiset{a[0]};
  }

  lemma MapHead<T, U>(f: T -> U, a: seq<T>)
    requires a != []
    ensures multiset(MapSeq(f, a)) == multiset{f(a[0])} + multiset(MapSeq(f, a[1..]))
  {
    assert MapSeq(f, a) == [f(a[0])] + MapSeq(f, a[1..]);
  }
}
