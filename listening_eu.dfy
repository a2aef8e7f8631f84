/**
 * The listening page of Everybody Up lesson 0: three tabs whose correct
 * counts are recounted from scratch on every check, and the results line.
 */
module ListeningEu {
  import opened Wrappers
  import opened Text
  import opened Answers

  datatype ChoiceQuestion = ChoiceQuestion(id: int, correctAnswer: string)
  datatype FillQuestion = FillQuestion(id: int, correctAnswer: string)
  datatype Dialogue = Dialogue(id: int, questions: seq<ChoiceQuestion>)

  datatype ExerciseData = ExerciseData(
    listenAndChoose: seq<ChoiceQuestion>,
    fillInTheBlank: seq<FillQuestion>,
    dialogues: seq<Dialogue>)

  datatype Tab = ListenAndChoose | FillInTheBlank | Dialogues

  /** A radio group is correct when some radio is checked and its value is
      the answer. */
  predicate ChoiceCorrect(q: ChoiceQuestion, selected: Option<string>) {
    selected.Some? && selected.value == q.correctAnswer
  }

  /** A text field is correct when it exists and its trimmed, lower-cased
      value is the trimmed, lower-cased answer. */
  predicate FillCorrect(q: FillQuestion, input: Option<string>) {
    input.Some? && TrimLower(input.value) == TrimLower(q.correctAnswer)
  }

  function CountChoice(qs: seq<ChoiceQuestion>, sel: seq<Option<string>>): (n: nat)
    requires |qs| == |sel|
    ensures n <= |qs|
    decreases |qs|
  {
    if qs == [] then 0
    else
      var last := |qs| - 1;
      CountChoice(qs[..last], sel[..last]) + (if ChoiceCorrect(qs[last], sel[last]) then 1 else 0)
  }

  function CountFill(qs: seq<FillQuestion>, inputs: seq<Option<string>>): (n: nat)
    requires |qs| == |inputs|
    ensures n <= |qs|
    decreases |qs|
  {
    if qs == [] then 0
    else
      var last := |qs| - 1;
      CountFill(qs[..last], inputs[..last]) + (if FillCorrect(qs[last], inputs[last]) then 1 else 0)
  }

  /** The dialogues tab totals the question counts of all dialogues. */
  function QuestionCount(ds: seq<Dialogue>): nat
    decreases |ds|
  {
    if ds == [] then 0 else QuestionCount(ds[..|ds| - 1]) + |ds[|ds| - 1].questions|
  }

  /** One selection list per dialogue, one entry per question. */
  predicate Shaped(ds: seq<Dialogue>, sel: seq<seq<Option<string>>>) {
    |ds| == |sel| && forall k :: 0 <= k < |ds| ==> |sel[k]| == |ds[k].questions|
  }

  function CountDialogues(ds: seq<Dialogue>, sel: seq<seq<Option<string>>>): (n: nat)
    requires Shaped(ds, sel)
    decreases |ds|
  {
    if ds == [] then 0
    else
      var last := |ds| - 1;
      CountDialogues(ds[..last], sel[..last]) + CountChoice(ds[last].questions, sel[last])
  }

  /** The dialogue count never exceeds the dialogue total. */
  lemma {:induction false} DialoguesBounded(ds: seq<Dialogue>, sel: seq<seq<Option<string>>>)
    requires Shaped(ds, sel)
    ensures CountDialogues(ds, sel) <= QuestionCount(ds)
    decreases |ds|
  {
    if ds != [] {
      DialoguesBounded(ds[..|ds| - 1], sel[..|sel| - 1]);
    }
  }

  /** `score.total > 0 ? correct / total * 100 : 0` */
  function Percentage(correct: nat, total: nat): (p: real)
    ensures total == 0 ==> p == 0.0
    ensures 0 < total && correct <= total ==> 0.0 <= p <= 100.0 && (p == 100.0 <==> correct == total)
  {
    if total > 0 then
      PercentOf(correct, total);
      (correct as real / total as real) * 100.0
    else 0.0
  }

  lemma PercentOf(correct: nat, total: nat)
    requires 0 < total
    ensures correct <= total ==> 0.0 <= (correct as real / total as real) * 100.0 <= 100.0
    ensures (correct as real / total as real) * 100.0 == 100.0 <==> correct == total
  {
    var q := correct as real / total as real;
    assert q * total as real == correct as real;
  }

  datatype Emoji = Party | ThumbsUp | Smile | Thinking

  /** The results emoji: 100 %, at least 75 %, at least 50 %, or less. */
  function FeedbackEmoji(p: real): (e: Emoji)
    ensures e == Party <==> p == 100.0
    ensures e == ThumbsUp <==> p != 100.0 && p >= 75.0
    ensures e == Smile <==> p < 75.0 && p >= 50.0
    ensures e == Thinking <==> p != 100.0 && p < 50.0
  {
    if p == 100.0 then Party else if p >= 75.0 then ThumbsUp else if p >= 50.0 then Smile else Thinking
  }

  /** The counting loop of a radio-group tab: from 0, one per correct group. */
  method TallyChoices(qs: seq<ChoiceQuestion>, sel: seq<Option<string>>) returns (n: nat)
    requires |qs| == |sel|
    ensures n == CountChoice(qs, sel)
  {
    n := 0;
    var i := 0;
    while i < |qs|
      invariant 0 <= i <= |qs|
      invariant n == CountChoice(qs[..i], sel[..i])
    {
      assert qs[..i + 1][..i] == qs[..i] && sel[..i + 1][..i] == sel[..i];
      if ChoiceCorrect(qs[i], sel[i]) {
        n := n + 1;
      }
      i := i + 1;
    }
    assert qs[..i] == qs && sel[..i] == sel;
  }

  /** The counting loop of the fill-in-the-blank tab. */
  method TallyFills(qs: seq<FillQuestion>, inputs: seq<Option<string>>) returns (n: nat)
    requires |qs| == |inputs|
    ensures n == CountFill(qs, inputs)
  {
    n := 0;
    var i := 0;
    while i < |qs|
      invariant 0 <= i <= |qs|
      invariant n == CountFill(qs[..i], inputs[..i])
    {
      assert qs[..i + 1][..i] == qs[..i] && inputs[..i + 1][..i] == inputs[..i];
      if FillCorrect(qs[i], inputs[i]) {
        n := n + 1;
      }
      i := i + 1;
    }
    assert qs[..i] == qs && inputs[..i] == inputs;
  }

  /** The nested loop of the dialogues tab: every question of every dialogue. */
  method TallyDialogues(ds: seq<Dialogue>, sel: seq<seq<Option<string>>>) returns (n: nat)
    requires Shaped(ds, sel)
    ensures n == CountDialogues(ds, sel)
  {
    n := 0;
    var d := 0;
    while d < |ds|
      invariant 0 <= d <= |ds|
      invariant n == CountDialogues(ds[..d], sel[..d])
    {
      assert ds[..d + 1][..d] == ds[..d] && sel[..d + 1][..d] == sel[..d];
      var m := TallyChoices(ds[d].questions, sel[d]);
      n := n + m;
      d := d + 1;
    }
    assert ds[..d] == ds && sel[..d] == sel;
  }

  /** The page's `scores` object. */
  class ListeningBoard {
    const data: ExerciseData
    var listenAndChooseCorrect: nat
    var fillInTheBlankCorrect: nat
    var dialoguesCorrect: nat

    function Total(tab: Tab): nat
    {
      match tab
      case ListenAndChoose => |data.listenAndChoose|
      case FillInTheBlank => |data.fillInTheBlank|
      case Dialogues => QuestionCount(data.dialogues)
    }

    function Correct(tab: Tab): nat
      reads this
    {
      match tab
      case ListenAndChoose => listenAndChooseCorrect
      case FillInTheBlank => fillInTheBlankCorrect
      case Dialogues => dialoguesCorrect
    }

    /** No tab's count exceeds its total. */
    predicate Valid()
      reads this
    {
      Correct(ListenAndChoose) <= Total(ListenAndChoose)
      && Correct(FillInTheBlank) <= Total(FillInTheBlank)
      && Correct(Dialogues) <= Total(Dialogues)
    }

    constructor(data: ExerciseData)
      ensures this.data == data
      ensures listenAndChooseCorrect == 0 && fillInTheBlankCorrect == 0 && dialoguesCorrect == 0
      ensures Valid()
    {
      this.data := data;
      listenAndChooseCorrect, fillInTheBlankCorrect, dialoguesCorrect := 0, 0, 0;
    }

    /** Checking the listen-and-choose tab: the count restarts at 0 and one
        is added per correct radio group. */
    method CheckListenAndChoose(sel: seq<Option<string>>)
      requires Valid() && |sel| == |data.listenAndChoose|
      modifies this
      ensures listenAndChooseCorrect == CountChoice(data.listenAndChoose, sel)
      ensures fillInTheBlankCorrect == old(fillInTheBlankCorrect) && dialoguesCorrect == old(dialoguesCorrect)
      ensures Valid()
    {
      listenAndChooseCorrect := TallyChoices(data.listenAndChoose, sel);
    }

    /** Checking the fill-in-the-blank tab. */
    method CheckFillInTheBlank(inputs: seq<Option<string>>)
      requires Valid() && |inputs| == |data.fillInTheBlank|
      modifies this
      ensures fillInTheBlankCorrect == CountFill(data.fillInTheBlank, inputs)
      ensures listenAndChooseCorrect == old(listenAndChooseCorrect) && dialoguesCorrect == old(dialoguesCorrect)
      ensures Valid()
    {
      fillInTheBlankCorrect := TallyFills(data.fillInTheBlank, inputs);
    }

    /** Checking the dialogues tab: every question of every dialogue. */
    method CheckDialogues(sel: seq<seq<Option<string>>>)
      requires Valid() && Shaped(data.dialogues, sel)
      modifies this
      ensures dialoguesCorrect == CountDialogues(data.dialogues, sel)
      ensures listenAndChooseCorrect == old(listenAndChooseCorrect) && fillInTheBlankCorrect == old(fillInTheBlankCorrect)
      ensures Valid()
    {
      var n := TallyDialogues(data.dialogues, sel);
      DialoguesBounded(data.dialogues, sel);
      dialoguesCorrect := n;
    }

    /** `showResults(tab)`: the percentage and its emoji. */
    function Results(tab: Tab): (r: (real, Emoji))
      reads this
      ensures r.1 == FeedbackEmoji(r.0)
      ensures Valid() && Total(tab) > 0 ==> 0.0 <= r.0 <= 100.0 && (r.1 == Party <==> Correct(tab) == Total(tab))
    {
      var p := Percentage(Correct(tab), Total(tab));
      (p, FeedbackEmoji(p))
    }
  }

  function NoneOf(n: nat): (r: seq<Option<string>>)
    ensures |r| == n
  {
    seq(n, _ => None)
  }

  /** A question without a checked radio is never counted. */
  lemma {:induction false} NothingCheckedCountsZero(qs: seq<ChoiceQuestion>)
    ensures CountChoice(qs, NoneOf(|qs|)) == 0
    decreases |qs|
  {
    if qs != [] {
      var last := |qs| - 1;
      assert NoneOf(|qs|)[..last] == NoneOf(last);
      NothingCheckedCountsZero(qs[..last]);
    }
  }
}
