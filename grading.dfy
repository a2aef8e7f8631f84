/**
 * The grading vocabulary shared by the reading-comprehension slide and the
 * exercise pages: per-question records keyed by question id, the marking
 * rules (exact, summary, multi-select), the selection toggle, the feedback
 * write-back of a grading pass, and `Math.round` of a percentage.
 */
module Grading {
  import opened Wrappers
  import opened Text
  import opened Answers

  /** The set of ids in a list. */
  function IdSet(ids: seq<string>): set<string> {
    set i | 0 <= i < |ids| :: ids[i]
  }

  /** `ids.reduce((acc, id) => { acc[id] = v; return acc }, {})`: a record
      mapping exactly the given ids to `v`. */
  function Record<V>(ids: seq<string>, v: V): (r: map<string, V>)
    ensures r.Keys == IdSet(ids)
    ensures forall id :: id in r ==> r[id] == v
    decreases |ids|
  {
    if ids == [] then map[]
    else
      var rest := Record(ids[..|ids| - 1], v);
      assert IdSet(ids) == IdSet(ids[..|ids| - 1]) + {ids[|ids| - 1]};
      rest[ids[|ids| - 1] := v]
  }

  /** Reading a record entry, `undefined` when the key is absent. */
  function Get<V>(m: map<string, V>, k: string): Option<V> {
    if k in m then Some(m[k]) else None
  }

  /** How one question is marked. */
  datatype Rule =
    | Exact(correct: string)           // `answers[id] === correct`
    | Summary(accepted: seq<string>)   // a trimmed, lower-cased non-empty match
    | MultiSelect(expected: seq<string>) // every key selected, same length

  datatype Question = Question(id: string, rule: Rule)

  function Ids(qs: seq<Question>): (r: seq<string>)
    ensures |r| == |qs| && forall k :: 0 <= k < |qs| ==> r[k] == qs[k].id
  {
    seq(|qs|, k requires 0 <= k < |qs| => qs[k].id)
  }

  /** The summary rule: the entered text (missing counts as empty), trimmed
      and lower-cased, is non-empty and equals some accepted answer treated
      the same way. */
  predicate SummaryCorrect(answer: Option<string>, accepted: seq<string>) {
    var user := TrimLower(if answer.Some? then answer.value else "");
    user != "" && exists k :: 0 <= k < |accepted| && TrimLower(accepted[k]) == user
  }

  /** The multi-select rule: every expected key is selected and the selection
      has the expected length. */
  predicate MultiSelectCorrect(selected: seq<string>, expected: seq<string>) {
    (forall k :: 0 <= k < |expected| ==> expected[k] in selected) && |selected| == |expected|
  }

  /** The verdict for one question, from the text answers and the
      selections. */
  predicate Verdict(q: Question, text: map<string, string>, picks: map<string, seq<string>>) {
    match q.rule
    case Exact(c) => Get(text, q.id) == Some(c)
    case Summary(acc) => SummaryCorrect(Get(text, q.id), acc)
    case MultiSelect(exp) => MultiSelectCorrect(if q.id in picks then picks[q.id] else [], exp)
  }

  /** The empty answer never satisfies an exact rule whose answer is set. */
  lemma EmptyNeverExact(q: Question, ids: seq<string>, picks: map<string, seq<string>>)
    requires q.rule.Exact? && q.rule.correct != ""
    ensures !Verdict(q, Record(ids, ""), picks)
  {
  }

  /** An empty or blank summary answer is never correct. */
  lemma BlankSummaryWrong(answer: string, accepted: seq<string>)
    requires forall i :: 0 <= i < |answer| ==> IsSpace(answer[i])
    ensures !SummaryCorrect(Some(answer), accepted) && !SummaryCorrect(None, accepted)
  {
    TrimAllSpace(answer);
  }

  /** A summary answer typed as one of the accepted answers, in any letter
      case and with any padding, is correct. */
  lemma SummaryAcceptsVariant(accepted: seq<string>, k: nat, pad: string)
    requires k < |accepted| && accepted[k] != [] && Unpadded(accepted[k])
    requires forall i :: 0 <= i < |pad| ==> IsSpace(pad[i])
    ensures SummaryCorrect(Some(pad + ToUpper(accepted[k]) + pad), accepted)
  {
    TypedMatchesOwnAnswer(accepted[k], pad);
    TrimOfUnpadded(accepted[k]);
  }

  function CountCorrect(qs: seq<Question>, text: map<string, string>, picks: map<string, seq<string>>): (n: nat)
    ensures n <= |qs|
    decreases |qs|
  {
    if qs == [] then 0
    else
      var last := |qs| - 1;
      CountCorrect(qs[..last], text, picks) + (if Verdict(qs[last], text, picks) then 1 else 0)
  }

  /** The feedback record after writing, in order, each question's verdict
      under its id. */
  function Written(fb: map<string, Option<bool>>, qs: seq<Question>, text: map<string, string>,
                   picks: map<string, seq<string>>): map<string, Option<bool>>
    decreases |qs|
  {
    if qs == [] then fb
    else
      var last := |qs| - 1;
      Written(fb, qs[..last], text, picks)[qs[last].id := Some(Verdict(qs[last], text, picks))]
  }

  /** One `forEach` grading pass over a list of questions: the verdicts go
      into the feedback record and the correct ones are counted. */
  method GradeList(qs: seq<Question>, text: map<string, string>, picks: map<string, seq<string>>,
                   fb: map<string, Option<bool>>)
    returns (correct: nat, fb': map<string, Option<bool>>)
    ensures correct == CountCorrect(qs, text, picks)
    ensures fb' == Written(fb, qs, text, picks)
  {
    correct, fb' := 0, fb;
    var i := 0;
    while i < |qs|
      invariant 0 <= i <= |qs|
      invariant correct == CountCorrect(qs[..i], text, picks)
      invariant fb' == Written(fb, qs[..i], text, picks)
    {
      PassNext(qs, i, fb, text, picks);
      var isCorrect := Verdict(qs[i], text, picks);
      fb' := fb'[qs[i].id := Some(isCorrect)];
      if isCorrect {
        correct := correct + 1;
      }
      i := i + 1;
    }
    assert qs[..i] == qs;
  }

  /** Grading one more question of the list. */
  lemma PassNext(qs: seq<Question>, i: nat, fb: map<string, Option<bool>>, text: map<string, string>,
                 picks: map<string, seq<string>>)
    requires i < |qs|
    ensures CountCorrect(qs[..i + 1], text, picks)
      == CountCorrect(qs[..i], text, picks) + (if Verdict(qs[i], text, picks) then 1 else 0)
    ensures Written(fb, qs[..i + 1], text, picks)
      == Written(fb, qs[..i], text, picks)[qs[i].id := Some(Verdict(qs[i], text, picks))]
  {
    assert qs[..i + 1][..i] == qs[..i];
  }

  predicate Distinct(qs: seq<Question>) {
    forall i, j :: 0 <= i < j < |qs| ==> qs[i].id != qs[j].id
  }

  /** After a pass every graded id holds a boolean, and nothing else moved. */
  lemma {:induction false} WrittenShape(fb: map<string, Option<bool>>, qs: seq<Question>,
                                        text: map<string, string>, picks: map<string, seq<string>>)
    ensures Written(fb, qs, text, picks).Keys == fb.Keys + IdSet(Ids(qs))
    ensures forall k :: 0 <= k < |qs| ==> Written(fb, qs, text, picks)[qs[k].id].Some?
    ensures forall id :: id in fb && id !in IdSet(Ids(qs)) ==> Written(fb, qs, text, picks)[id] == fb[id]
    decreases |qs|
  {
    if qs != [] {
      var last := |qs| - 1;
      WrittenShape(fb, qs[..last], text, picks);
      assert IdSet(Ids(qs)) == IdSet(Ids(qs[..last])) + {qs[last].id};
      forall k | 0 <= k < last
        ensures qs[..last][k] == qs[k] && Ids(qs[..last])[k] == qs[k].id
      {
      }
    }
  }

  /** With distinct ids each question's entry is its own verdict. */
  lemma {:induction false} WrittenVerdicts(fb: map<string, Option<bool>>, qs: seq<Question>,
                                           text: map<string, string>, picks: map<string, seq<string>>)
    requires Distinct(qs)
    ensures forall k :: 0 <= k < |qs| ==>
      Get(Written(fb, qs, text, picks), qs[k].id) == Some(Some(Verdict(qs[k], text, picks)))
    decreases |qs|
  {
    if qs != [] {
      var last := |qs| - 1;
      WrittenVerdicts(fb, qs[..last], text, picks);
      WrittenShape(fb, qs[..last], text, picks);
      forall k | 0 <= k < last
        ensures Get(Written(fb, qs, text, picks), qs[k].id) == Some(Some(Verdict(qs[k], text, picks)))
      {
        assert qs[..last][k] == qs[k];
        assert qs[k].id != qs[last].id;
      }
    }
  }

  /** The number of the questions whose entry in `fb` is `true`. */
  function TrueCount(fb: map<string, Option<bool>>, qs: seq<Question>): nat
    decreases |qs|
  {
    if qs == [] then 0
    else
      var last := |qs| - 1;
      TrueCount(fb, qs[..last]) + (if Get(fb, qs[last].id) == Some(Some(true)) then 1 else 0)
  }

  lemma {:induction false} TrueCountUpdate(fb: map<string, Option<bool>>, qs: seq<Question>, id: string, v: Option<bool>)
    requires forall k :: 0 <= k < |qs| ==> qs[k].id != id
    ensures TrueCount(fb[id := v], qs) == TrueCount(fb, qs)
    decreases |qs|
  {
    if qs != [] {
      TrueCountUpdate(fb, qs[..|qs| - 1], id, v);
    }
  }

  /** With distinct ids, the true entries of the written feedback number
      exactly the correct count. */
  lemma {:induction false} TrueEntriesMatchCount(fb: map<string, Option<bool>>, qs: seq<Question>,
                                                 text: map<string, string>, picks: map<string, seq<string>>)
    requires Distinct(qs)
    ensures TrueCount(Written(fb, qs, text, picks), qs) == CountCorrect(qs, text, picks)
    decreases |qs|
  {
    if qs != [] {
      var last := |qs| - 1;
      var prefix := qs[..last];
      assert Distinct(prefix);
      TrueEntriesMatchCount(fb, prefix, text, picks);
      forall k | 0 <= k < |prefix|
        ensures prefix[k].id != qs[last].id
      {
        assert prefix[k] == qs[k];
      }
      TrueCountUpdate(Written(fb, prefix, text, picks), prefix, qs[last].id, Some(Verdict(qs[last], text, picks)));
    }
  }

  /** `prev[id] || []` with `key` removed when present and appended when not. */
  function Toggle(current: seq<string>, key: string): (r: seq<string>)
    ensures key in current ==> key !in r
    ensures key !in current ==> r == current + [key]
    ensures forall other :: other != key ==> (other in r <==> other in current)
  {
    if key in current then Without(current, key) else current + [key]
  }

  /** Toggling a key twice restores whether it is selected, and never changes
      any other key. */
  lemma ToggleTwice(current: seq<string>, key: string)
    ensures key in Toggle(Toggle(current, key), key) <==> key in current
    ensures forall other :: other != key ==>
      (other in Toggle(Toggle(current, key), key) <==> other in current)
  {
  }

  /** `toggleSelection(id, key)` on a record of selections: only `id` moves. */
  function ToggleIn(picks: map<string, seq<string>>, id: string, key: string): (r: map<string, seq<string>>)
    ensures r.Keys == picks.Keys + {id}
    ensures r[id] == Toggle(if id in picks then picks[id] else [], key)
    ensures forall other :: other in picks && other != id ==> r[other] == picks[other]
  {
    picks[id := Toggle(if id in picks then picks[id] else [], key)]
  }

  /** Integer division of naturals by repeated subtraction: the floor of
      `n / d`, as `QuotientIsDivision` shows. */
  function Quotient(n: nat, d: nat): nat
    requires d > 0
    decreases n
  {
    if n < d then 0 else 1 + Quotient(n - d, d)
  }

  lemma {:induction false} QuotientSpec(n: nat, d: nat)
    requires d > 0
    ensures d * Quotient(n, d) <= n < d * (Quotient(n, d) + 1)
    decreases n
  {
    if n >= d {
      QuotientSpec(n - d, d);
      var q := Quotient(n - d, d);
      assert d * (q + 1) == d * q + d && d * (q + 2) == d * (q + 1) + d;
    }
  }

  /** `Quotient` is Dafny's (and, on naturals, JavaScript's flooring) `/`. */
  lemma QuotientIsDivision(n: nat, d: nat)
    requires d > 0
    ensures Quotient(n, d) == n / d
  {
    QuotientSpec(n, d);
    var q := Quotient(n, d);
    DivBetween(n, d, q, q);
  }

  /** The quotient lands in `[lo, hi]` when the dividend does. */
  lemma QuotientBetween(n: nat, d: nat, lo: int, hi: int)
    requires d > 0 && d * lo <= n < d * (hi + 1)
    ensures lo <= Quotient(n, d) <= hi
  {
    QuotientSpec(n, d);
    var q := Quotient(n, d);
    if q > hi {
      MulMonotone(d, hi + 1, q);
    }
    if q < lo {
      MulMonotone(d, q + 1, lo);
    }
  }

  /** `Math.round(correct / total * 100)` on exact rationals: the nearest
      integer to 100 * correct / total, halves rounded up. */
  function RoundPercent(correct: nat, total: nat): (r: int)
    requires total > 0
    ensures correct <= total ==> 0 <= r <= 100
    ensures correct == total ==> r == 100
    ensures correct == 0 ==> r == 0
  {
    RoundedRatioBounds(correct, total);
    Quotient(200 * correct + total, 2 * total)
  }

  lemma RoundedRatioBounds(correct: nat, total: nat)
    requires total > 0
    ensures correct <= total ==> 0 <= Quotient(200 * correct + total, 2 * total) <= 100
    ensures correct == total ==> Quotient(200 * correct + total, 2 * total) == 100
    ensures correct == 0 ==> Quotient(200 * correct + total, 2 * total) == 0
  {
    if correct <= total {
      QuotientBetween(200 * correct + total, 2 * total, if correct == total then 100 else 0, if correct == 0 then 0 else 100);
    }
  }

  /** Integer division lands in `[lo, hi]` when the dividend does. */
  lemma DivBetween(a: int, b: int, lo: int, hi: int)
    requires b > 0 && b * lo <= a < b * (hi + 1)
    ensures lo <= a / b <= hi
  {
    var q := a / b;
    assert a == b * q + a % b;
    if q > hi {
      MulMonotone(b, hi + 1, q);
    }
    if q < lo {
      MulMonotone(b, q + 1, lo);
    }
  }

  lemma MulMonotone(b: int, x: int, y: int)
    requires b >= 0 && x <= y
    ensures b * x <= b * y
  {
    assert b * y - b * x == b * (y - x);
  }

  /** `RoundPercent` is the nearest integer: within one half of the ratio. */
  lemma RoundPercentNearest(correct: nat, total: nat)
    requires total > 0
    ensures 2 * total * RoundPercent(correct, total) <= 200 * correct + total
    ensures 200 * correct + total < 2 * total * (RoundPercent(correct, total) + 1)
  {
    QuotientSpec(200 * correct + total, 2 * total);
  }
}
