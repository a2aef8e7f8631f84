/**
 * Grading in the listening page of the multiple-intelligence lesson: a
 * case-insensitive Levenshtein distance computed with one row of costs, the
 * similarity percentage built on it, and the per-kind marking of a tab.
 */
module ListeningMi {
  import opened Text
  import opened Answers

  function Min(x: int, y: int): int { if x <= y then x else y }

  /** Edit distance between the first `i` characters of `a` and the first `j`
      of `b`: unit cost for insertion, deletion and substitution, and a free
      step over equal last characters, as the dynamic programme takes it. */
  function D(a: string, b: string, i: nat, j: nat): nat
    requires i <= |a| && j <= |b|
    decreases i + j
  {
    if i == 0 then j
    else if j == 0 then i
    else if a[i - 1] == b[j - 1] then D(a, b, i - 1, j - 1)
    else 1 + Min(Min(D(a, b, i - 1, j - 1), D(a, b, i, j - 1)), D(a, b, i - 1, j))
  }

  lemma {:induction false} DSymmetric(a: string, b: string, i: nat, j: nat)
    requires i <= |a| && j <= |b|
    ensures D(a, b, i, j) == D(b, a, j, i)
    decreases i + j
  {
    if i > 0 && j > 0 {
      DSymmetric(a, b, i - 1, j - 1);
      if a[i - 1] != b[j - 1] {
        DSymmetric(a, b, i, j - 1);
        DSymmetric(a, b, i - 1, j);
      }
    }
  }

  lemma {:induction false} DAtMostLonger(a: string, b: string, i: nat, j: nat)
    requires i <= |a| && j <= |b|
    ensures D(a, b, i, j) <= if i < j then j else i
    decreases i + j
  {
    if i > 0 && j > 0 {
      DAtMostLonger(a, b, i - 1, j - 1);
    }
  }

  /** The distance is zero exactly between equal prefixes. */
  lemma {:induction false} DZeroIffEqual(a: string, b: string, i: nat, j: nat)
    requires i <= |a| && j <= |b|
    ensures D(a, b, i, j) == 0 <==> a[..i] == b[..j]
    decreases i + j
  {
    if i > 0 && j > 0 {
      DZeroIffEqual(a, b, i - 1, j - 1);
      assert a[..i] == a[..i - 1] + [a[i - 1]];
      assert b[..j] == b[..j - 1] + [b[j - 1]];
      if a[..i] == b[..j] {
        assert a[i - 1] == a[..i][i - 1];
      }
    } else if i == 0 && j > 0 {
      assert |b[..j]| > 0;
    } else if i > 0 && j == 0 {
      assert |a[..i]| > 0;
    }
  }

  /** `editDistance(s1, s2)`: the distance between the lower-cased strings. */
  function EditDistance(s1: string, s2: string): nat {
    D(ToLower(s1), ToLower(s2), |s1|, |s2|)
  }

  /** Midway through row `i`: the cells before `j - 1` hold row `i`, the
      rest still hold row `i - 1`, and `lastValue` is the cell `j - 1` of row `i`. */
  ghost predicate RowState(a: string, b: string, i: nat, j: nat, c: seq<int>, lastValue: int)
    requires 0 < i <= |a| && 1 <= j <= |b| + 1 && |c| == |b| + 1
  {
    lastValue == D(a, b, i, j - 1)
    && (forall k :: 0 <= k < j - 1 ==> c[k] == D(a, b, i, k))
    && (forall k :: j - 1 <= k <= |b| ==> c[k] == D(a, b, i - 1, k))
  }

  /** One cell of the row: the value the source computes is the distance. */
  lemma RowStep(a: string, b: string, i: nat, j: nat, c: seq<int>, lastValue: int, newValue: int)
    requires 0 < i <= |a| && 1 <= j <= |b| && |c| == |b| + 1
    requires RowState(a, b, i, j, c, lastValue)
    requires newValue == if a[i - 1] == b[j - 1] then c[j - 1] else Min(Min(c[j - 1], lastValue), c[j]) + 1
    ensures RowState(a, b, i, j + 1, c[j - 1 := lastValue], newValue)
  {
    assert c[j - 1] == D(a, b, i - 1, j - 1) && c[j] == D(a, b, i - 1, j);
  }

  /** One pass of the source's inner loop for row `i > 0`: `costs` holds row
      `i - 1` on entry and row `i` on exit, the last cell written after the
      loop from `lastValue`. */
  method FillRow(a: string, b: string, i: nat, costs: array<int>)
    requires 0 < i <= |a| && costs.Length == |b| + 1
    requires forall k :: 0 <= k < costs.Length ==> costs[k] == D(a, b, i - 1, k)
    modifies costs
    ensures forall k :: 0 <= k < costs.Length ==> costs[k] == D(a, b, i, k)
  {
    var n := |b|;
    var lastValue := i;
    var j := 1;
    while j <= n
      invariant 1 <= j <= n + 1
      invariant RowState(a, b, i, j, costs[..], lastValue)
    {
      var newValue := costs[j - 1];
      if a[i - 1] != b[j - 1] {
        newValue := Min(Min(newValue, lastValue), costs[j]) + 1;
      }
      RowStep(a, b, i, j, costs[..], lastValue, newValue);
      costs[j - 1] := lastValue;
      lastValue := newValue;
      j := j + 1;
    }
    costs[n] := lastValue;
  }

  /** The source's one-row dynamic programme, on an array of costs: row 0 is
      `0, 1, ..., |s2|`, and every later row is filled from the one before. */
  method ComputeEditDistance(s1: string, s2: string) returns (d: int)
    ensures d == EditDistance(s1, s2)
  {
    var a := ToLower(s1);
    var b := ToLower(s2);
    var n := |b|;
    var costs := new int[n + 1];
    var j := 0;
    while j <= n
      invariant 0 <= j <= n + 1
      invariant forall k :: 0 <= k < j ==> costs[k] == D(a, b, 0, k)
    {
      costs[j] := j;
      j := j + 1;
    }
    var i := 1;
    while i <= |a|
      invariant 1 <= i <= |a| + 1
      invariant forall k :: 0 <= k <= n ==> costs[k] == D(a, b, i - 1, k)
    {
      FillRow(a, b, i, costs);
      i := i + 1;
    }
    d := costs[n];
  }

  /** The distance ignores letter case, is symmetric, is bounded by the longer
      length, and is the other length against the empty string. */
  lemma EditDistanceProperties(s1: string, s2: string)
    ensures EditDistance(s1, s2) == 0 <==> ToLower(s1) == ToLower(s2)
    ensures EditDistance(s1, s2) == EditDistance(s2, s1)
    ensures EditDistance(s1, s2) <= if |s1| < |s2| then |s2| else |s1|
    ensures EditDistance(s1, "") == |s1| && EditDistance("", s2) == |s2|
  {
    var a, b := ToLower(s1), ToLower(s2);
    DZeroIffEqual(a, b, |s1|, |s2|);
    assert a[..|s1|] == a && b[..|s2|] == b;
    DSymmetric(a, b, |s1|, |s2|);
    DAtMostLonger(a, b, |s1|, |s2|);
  }

  /** The share of `l` left after `d` edits, as a percentage. */
  function Percent(l: nat, d: nat): real
    requires l > 0
  {
    ((l - d) as real / l as real) * 100.0
  }

  lemma PercentBounds(l: nat, d: nat)
    requires 0 <= d <= l && l > 0
    ensures 0.0 <= Percent(l, d) <= 100.0
    ensures Percent(l, d) == 100.0 <==> d == 0
  {
    var q := (l - d) as real / l as real;
    assert q * l as real == (l - d) as real;
  }

  /** `calculateSimilarity(s1, s2)`: 1.0 for two empty strings, otherwise the
      share of the longer length not spent on edits, as a percentage. */
  function Similarity(s1: string, s2: string): real {
    var longer := if |s1| < |s2| then s2 else s1;
    var shorter := if |s1| < |s2| then s1 else s2;
    if |longer| == 0 then 1.0 else Percent(|longer|, EditDistance(longer, shorter))
  }

  lemma SimilarityProperties(s1: string, s2: string)
    ensures s1 == [] && s2 == [] ==> Similarity(s1, s2) == 1.0
    ensures s1 != [] || s2 != [] ==> 0.0 <= Similarity(s1, s2) <= 100.0
    ensures s1 != [] || s2 != [] ==> (Similarity(s1, s2) == 100.0 <==> ToLower(s1) == ToLower(s2))
    ensures Similarity(s1, s2) == Similarity(s2, s1)
  {
    EditDistanceProperties(s1, s2);
    if s1 != [] || s2 != [] {
      var longer := if |s1| < |s2| then s2 else s1;
      var shorter := if |s1| < |s2| then s1 else s2;
      EditDistanceProperties(longer, shorter);
      PercentBounds(|longer|, EditDistance(longer, shorter));
    }
  }

  /** `x.toFixed(0)` read back as a number: the nearest integer, halves up. */
  function RoundHalfUp(x: real): int {
    (x + 0.5).Floor
  }

  lemma RoundHalfUpBounds(x: real, lo: int, hi: int)
    requires lo as real <= x <= hi as real
    ensures lo <= RoundHalfUp(x) <= hi
  {
  }

  /** The four kinds of tab. */
  datatype Kind = MultipleChoice | FillInTheBlank | Dictation | TrueFalse

  /** An answer key: a string, or a boolean for true/false items. */
  datatype Key = Text(s: string) | Flag(b: bool)

  /** `String(key)` */
  function KeyString(k: Key): string {
    match k
    case Text(s) => s
    case Flag(b) => if b then "true" else "false"
  }

  datatype Question = Question(id: int, correctAnswer: Key, audioScript: string)

  /** What the page holds for one question: no question element at all, an
      element without a checked radio or without its text field, or a value. */
  datatype Response = NoElement | NoInput | Value(v: string)

  /** Whether one item is marked correct, for an item whose element exists. */
  function ItemCorrect(kind: Kind, q: Question, r: Response): bool
    requires kind == FillInTheBlank ==> q.correctAnswer.Text?
  {
    match r
    case NoElement => false
    case NoInput => false
    case Value(v) =>
      match kind
      case MultipleChoice => q.correctAnswer.Text? && v == q.correctAnswer.s
      case FillInTheBlank => AlnumForm(v) == AlnumForm(q.correctAnswer.s)
      case Dictation => Similarity(v, q.audioScript) > 80.0
      case TrueFalse => v == KeyString(q.correctAnswer)
  }

  /** The mark one item gets: unmarked (no element), or correct or incorrect. */
  datatype Mark = Unmarked | Correct | Incorrect

  /** The mark of one item. */
  function MarkOf(kind: Kind, q: Question, r: Response): Mark
    requires kind == FillInTheBlank ==> q.correctAnswer.Text?
  {
    if r.NoElement? then Unmarked else if ItemCorrect(kind, q, r) then Correct else Incorrect
  }

  predicate Answerable(kind: Kind, qs: seq<Question>) {
    forall k :: 0 <= k < |qs| && kind == FillInTheBlank ==> qs[k].correctAnswer.Text?
  }

  /** The items counted in `totalCorrect`: correct ones, never dictation. */
  function CountCorrect(kind: Kind, qs: seq<Question>, rs: seq<Response>): nat
    requires |qs| == |rs| && Answerable(kind, qs)
    decreases |qs|
  {
    if qs == [] then 0
    else
      var last := |qs| - 1;
      CountCorrect(kind, qs[..last], rs[..last])
        + (if kind != Dictation && ItemCorrect(kind, qs[last], rs[last]) then 1 else 0)
  }

  /** The rounded accuracy recorded for each dictation item with a text area. */
  function DictationScores(qs: seq<Question>, rs: seq<Response>): seq<int>
    requires |qs| == |rs|
    decreases |qs|
  {
    if qs == [] then []
    else
      var last := |qs| - 1;
      DictationScores(qs[..last], rs[..last])
        + (if rs[last].Value? then [RoundHalfUp(Similarity(rs[last].v, qs[last].audioScript))] else [])
  }

  /** The handler after the first `i` items. */
  ghost predicate CheckedUpTo(kind: Kind, qs: seq<Question>, rs: seq<Response>, i: nat,
                              totalCorrect: nat, marks: seq<Mark>, scores: seq<int>)
    requires |qs| == |rs| && Answerable(kind, qs) && i <= |qs|
  {
    |marks| == i
    && totalCorrect == CountCorrect(kind, qs[..i], rs[..i])
    && (kind == Dictation ==> scores == DictationScores(qs[..i], rs[..i]))
    && (kind != Dictation ==> scores == [])
    && forall k :: 0 <= k < i ==> marks[k] == MarkOf(kind, qs[k], rs[k])
  }

  /** Checking item `i` extends the count, the marks and the scores by that item. */
  lemma CheckedStep(kind: Kind, qs: seq<Question>, rs: seq<Response>, i: nat,
                    totalCorrect: nat, marks: seq<Mark>, scores: seq<int>,
                    add: nat, mark: Mark, score: seq<int>)
    requires |qs| == |rs| && Answerable(kind, qs) && i < |qs|
    requires CheckedUpTo(kind, qs, rs, i, totalCorrect, marks, scores)
    requires add == if kind != Dictation && ItemCorrect(kind, qs[i], rs[i]) then 1 else 0
    requires mark == MarkOf(kind, qs[i], rs[i])
    requires score == if kind == Dictation && rs[i].Value? then [RoundHalfUp(Similarity(rs[i].v, qs[i].audioScript))] else []
    ensures CheckedUpTo(kind, qs, rs, i + 1, totalCorrect + add, marks + [mark], scores + score)
  {
    assert qs[..i + 1][..i] == qs[..i] && rs[..i + 1][..i] == rs[..i];
  }

  /** The handler's work on one item: what it adds to the count, the mark,
      and the score it records. */
  method CheckItem(kind: Kind, q: Question, r: Response) returns (add: nat, mark: Mark, score: seq<int>)
    requires kind == FillInTheBlank ==> q.correctAnswer.Text?
    ensures add == if kind != Dictation && ItemCorrect(kind, q, r) then 1 else 0
    ensures mark == MarkOf(kind, q, r)
    ensures score == if kind == Dictation && r.Value? then [RoundHalfUp(Similarity(r.v, q.audioScript))] else []
  {
    add, mark, score := 0, Unmarked, [];
    if !r.NoElement? {
      var isCorrect := ItemCorrect(kind, q, r);
      if kind == Dictation && r.Value? {
        score := [RoundHalfUp(Similarity(r.v, q.audioScript))];
      }
      if isCorrect {
        if kind != Dictation { add := 1; }
        mark := Correct;
      } else {
        mark := Incorrect;
      }
    }
  }

  /** The check-answers handler for one tab: marks, the correct count and,
      for the dictation tab, the recorded scores. */
  method CheckAnswers(kind: Kind, qs: seq<Question>, rs: seq<Response>)
    returns (totalCorrect: nat, marks: seq<Mark>, scores: seq<int>)
    requires |qs| == |rs| && Answerable(kind, qs)
    ensures totalCorrect == CountCorrect(kind, qs, rs)
    ensures kind == Dictation ==> scores == DictationScores(qs, rs)
    ensures kind != Dictation ==> scores == []
    ensures |marks| == |qs|
    ensures forall k :: 0 <= k < |qs| ==>
      marks[k] == MarkOf(kind, qs[k], rs[k])
  {
    totalCorrect, marks, scores := 0, [], [];
    var i := 0;
    while i < |qs|
      invariant 0 <= i <= |qs|
      invariant CheckedUpTo(kind, qs, rs, i, totalCorrect, marks, scores)
    {
      var add, mark, score := CheckItem(kind, qs[i], rs[i]);
      CheckedStep(kind, qs, rs, i, totalCorrect, marks, scores, add, mark, score);
      totalCorrect, marks, scores := totalCorrect + add, marks + [mark], scores + score;
      i := i + 1;
    }
    assert qs[..i] == qs && rs[..i] == rs;
  }

  /** The dictation tab never adds to the correct count. */
  lemma {:induction false} DictationNeverCounted(qs: seq<Question>, rs: seq<Response>)
    requires |qs| == |rs|
    ensures CountCorrect(Dictation, qs, rs) == 0
    decreases |qs|
  {
    if qs != [] {
      DictationNeverCounted(qs[..|qs| - 1], rs[..|rs| - 1]);
    }
  }

  /** An element without an answer is never correct, whatever the kind. */
  lemma UnansweredIsIncorrect(kind: Kind, q: Question)
    requires kind == FillInTheBlank ==> q.correctAnswer.Text?
    ensures !ItemCorrect(kind, q, NoInput)
  {
  }

  function Sum(xs: seq<int>): int
    decreases |xs|
  {
    if xs == [] then 0 else Sum(xs[..|xs| - 1]) + xs[|xs| - 1]
  }

  /** The average accuracy shown on the dictation tab: the mean of the
      recorded scores, or 0 when none was recorded. */
  function AverageScore(scores: seq<int>): (r: real)
    ensures scores == [] ==> r == 0.0
  {
    if |scores| > 0 then Sum(scores) as real / |scores| as real else 0.0
  }

  lemma {:induction false} SumBounds(xs: seq<int>, lo: int, hi: int)
    requires forall k :: 0 <= k < |xs| ==> lo <= xs[k] <= hi
    ensures |xs| * lo <= Sum(xs) <= |xs| * hi
    decreases |xs|
  {
    if xs != [] {
      var n := |xs| - 1;
      var init := xs[..n];
      assert forall k :: 0 <= k < n ==> init[k] == xs[k];
      SumBounds(init, lo, hi);
      assert Sum(xs) == Sum(init) + xs[n];
      assert |xs| * lo == n * lo + lo && |xs| * hi == n * hi + hi;
    }
  }

  /** Every recorded score lies in [0, 100]. */
  lemma {:induction false} DictationScoresBounded(qs: seq<Question>, rs: seq<Response>)
    requires |qs| == |rs|
    ensures forall k :: 0 <= k < |DictationScores(qs, rs)| ==> 0 <= DictationScores(qs, rs)[k] <= 100
    decreases |qs|
  {
    if qs != [] {
      var last := |qs| - 1;
      DictationScoresBounded(qs[..last], rs[..last]);
      if rs[last].Value? {
        SimilarityProperties(rs[last].v, qs[last].audioScript);
        RoundHalfUpBounds(Similarity(rs[last].v, qs[last].audioScript), 0, 100);
      }
    }
  }

  /** So the average lies in [0, 100] as well. */
  lemma AverageBounded(qs: seq<Question>, rs: seq<Response>)
    requires |qs| == |rs|
    ensures 0.0 <= AverageScore(DictationScores(qs, rs)) <= 100.0
  {
    var s := DictationScores(qs, rs);
    DictationScoresBounded(qs, rs);
    SumBounds(s, 0, 100);
    if |s| > 0 {
      MeanBounded(Sum(s) as real, |s| as real);
    }
  }

  lemma MeanBounded(total: real, n: real)
    requires n > 0.0 && 0.0 <= total <= 100.0 * n
    ensures 0.0 <= total / n <= 100.0
  {
    var m := total / n;
    assert m * n == total;
  }
}
