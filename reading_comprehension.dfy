/**
 * The reading-comprehension slide: eight answer records (one per question
 * kind), seven feedback records, the multi-select toggle, grading and reset.
 */
module ReadingComprehension {
  import opened Wrappers
  import opened Grading

  /** The question lists of one slide; missing lists are empty. The five
      exact kinds carry `Exact` rules, summaries `Summary` and multi-select
      questions `MultiSelect`. */
  datatype Questions = Questions(
    singleChoice: seq<Question>,
    tfng: seq<Question>,
    matching: seq<Question>,
    summary: seq<Question>,
    shortAnswer: seq<string>,
    multiSelectItem: seq<Question>,
    pictureChoice: seq<Question>,
    textComprehension: seq<Question>)

  datatype Feedback = Feedback(
    singleChoice: map<string, Option<bool>>,
    tfng: map<string, Option<bool>>,
    matching: map<string, Option<bool>>,
    summary: map<string, Option<bool>>,
    multiSelectItem: map<string, Option<bool>>,
    pictureChoice: map<string, Option<bool>>,
    textComprehension: map<string, Option<bool>>)

  /** Feedback with every question id mapped to `null`. */
  function FreshFeedback(q: Questions): (f: Feedback)
    ensures f.singleChoice.Keys == IdSet(Ids(q.singleChoice)) && f.summary.Keys == IdSet(Ids(q.summary))
    ensures forall id :: id in f.singleChoice ==> f.singleChoice[id] == None
  {
    Feedback(
      Record(Ids(q.singleChoice), None), Record(Ids(q.tfng), None), Record(Ids(q.matching), None),
      Record(Ids(q.summary), None), Record(Ids(q.multiSelectItem), None),
      Record(Ids(q.pictureChoice), None), Record(Ids(q.textComprehension), None))
  }

  /** The score: `Math.round(correct / total * 100)`, 0 with nothing graded. */
  function ScoreOf(correct: nat, total: nat): (r: int)
    ensures correct <= total ==> 0 <= r <= 100
    ensures total == 0 ==> r == 0
  {
    if total > 0 then RoundPercent(correct, total) else 0
  }

  /** The eight answer records of the slide. */
  datatype AnswerRecords = AnswerRecords(
    singleChoice: map<string, string>,
    tfng: map<string, string>,
    matching: map<string, string>,
    summary: map<string, string>,
    shortAnswer: map<string, string>,
    multiSelectItem: map<string, seq<string>>,
    pictureChoice: map<string, string>,
    textComprehension: map<string, string>)

  /** The initial answers: every id mapped to '' (or to [] for selections). */
  function FreshAnswers(q: Questions): (a: AnswerRecords)
    ensures a.singleChoice.Keys == IdSet(Ids(q.singleChoice)) && a.shortAnswer.Keys == IdSet(q.shortAnswer)
    ensures forall id :: id in a.multiSelectItem ==> a.multiSelectItem[id] == []
  {
    AnswerRecords(
      Record(Ids(q.singleChoice), ""), Record(Ids(q.tfng), ""), Record(Ids(q.matching), ""),
      Record(Ids(q.summary), ""), Record(q.shortAnswer, ""), Record(Ids(q.multiSelectItem), []),
      Record(Ids(q.pictureChoice), ""), Record(Ids(q.textComprehension), ""))
  }

  /** The number of correct answers over all graded kinds. */
  function CorrectCount(q: Questions, a: AnswerRecords): (n: nat)
    ensures n <= TotalGraded(q)
  {
    CountCorrect(q.singleChoice, a.singleChoice, map[])
    + CountCorrect(q.tfng, a.tfng, map[])
    + CountCorrect(q.matching, a.matching, map[])
    + CountCorrect(q.summary, a.summary, map[])
    + CountCorrect(q.multiSelectItem, map[], a.multiSelectItem)
    + CountCorrect(q.pictureChoice, a.pictureChoice, map[])
    + CountCorrect(q.textComprehension, a.textComprehension, map[])
  }

  /** The total of graded questions: every kind except short answers. */
  function TotalGraded(q: Questions): nat {
    |q.singleChoice| + |q.tfng| + |q.matching| + |q.summary|
    + |q.multiSelectItem| + |q.pictureChoice| + |q.textComprehension|
  }

  /** The feedback a grading pass writes. */
  function GradedFeedback(q: Questions, a: AnswerRecords): Feedback {
    var f := FreshFeedback(q);
    Feedback(
      Written(f.singleChoice, q.singleChoice, a.singleChoice, map[]),
      Written(f.tfng, q.tfng, a.tfng, map[]),
      Written(f.matching, q.matching, a.matching, map[]),
      Written(f.summary, q.summary, a.summary, map[]),
      Written(f.multiSelectItem, q.multiSelectItem, map[], a.multiSelectItem),
      Written(f.pictureChoice, q.pictureChoice, a.pictureChoice, map[]),
      Written(f.textComprehension, q.textComprehension, a.textComprehension, map[]))
  }

  predicate DistinctIds(q: Questions) {
    Distinct(q.singleChoice) && Distinct(q.tfng) && Distinct(q.matching) && Distinct(q.summary)
    && Distinct(q.multiSelectItem) && Distinct(q.pictureChoice) && Distinct(q.textComprehension)
  }

  /** After grading, the feedback entries that are `true` number exactly the
      correct answers, as long as no kind repeats a question id. */
  lemma GradedFeedbackCounts(q: Questions, a: AnswerRecords)
    requires DistinctIds(q)
    ensures var f := GradedFeedback(q, a);
      TrueCount(f.singleChoice, q.singleChoice) + TrueCount(f.tfng, q.tfng) + TrueCount(f.matching, q.matching)
      + TrueCount(f.summary, q.summary) + TrueCount(f.multiSelectItem, q.multiSelectItem)
      + TrueCount(f.pictureChoice, q.pictureChoice) + TrueCount(f.textComprehension, q.textComprehension)
      == CorrectCount(q, a)
  {
    var f := FreshFeedback(q);
    TrueEntriesMatchCount(f.singleChoice, q.singleChoice, a.singleChoice, map[]);
    TrueEntriesMatchCount(f.tfng, q.tfng, a.tfng, map[]);
    TrueEntriesMatchCount(f.matching, q.matching, a.matching, map[]);
    TrueEntriesMatchCount(f.summary, q.summary, a.summary, map[]);
    TrueEntriesMatchCount(f.multiSelectItem, q.multiSelectItem, map[], a.multiSelectItem);
    TrueEntriesMatchCount(f.pictureChoice, q.pictureChoice, a.pictureChoice, map[]);
    TrueEntriesMatchCount(f.textComprehension, q.textComprehension, a.textComprehension, map[]);
  }

  /** The grading pass of `gradeTest()`, one `forEach` per kind, then the
      score. */
  method Grade(q: Questions, a: AnswerRecords) returns (fb: Feedback, s: int)
    ensures fb == GradedFeedback(q, a)
    ensures s == ScoreOf(CorrectCount(q, a), TotalGraded(q))
  {
    var correct;
    correct, fb := GradeKinds(q, a);
    var total := |q.singleChoice| + |q.tfng| + |q.matching| + |q.summary|
      + |q.multiSelectItem| + |q.pictureChoice| + |q.textComprehension|;
    assert total == TotalGraded(q);
    s := ScoreOf(correct, total);
  }

  /** The seven `forEach` passes: the verdicts and the number correct. */
  method GradeKinds(q: Questions, a: AnswerRecords) returns (correct: nat, fb: Feedback)
    ensures correct == CorrectCount(q, a)
    ensures fb == GradedFeedback(q, a)
  {
    var f := FreshFeedback(q);
    var c1, f1 := GradeList(q.singleChoice, a.singleChoice, map[], f.singleChoice);
    var c2, f2 := GradeList(q.tfng, a.tfng, map[], f.tfng);
    var c3, f3 := GradeList(q.matching, a.matching, map[], f.matching);
    var c4, f4 := GradeList(q.summary, a.summary, map[], f.summary);
    var c5, f5 := GradeList(q.multiSelectItem, map[], a.multiSelectItem, f.multiSelectItem);
    var c6, f6 := GradeList(q.pictureChoice, a.pictureChoice, map[], f.pictureChoice);
    var c7, f7 := GradeList(q.textComprehension, a.textComprehension, map[], f.textComprehension);
    correct := c1 + c2 + c3 + c4 + c5 + c6 + c7;
    fb := Feedback(f1, f2, f3, f4, f5, f6, f7);
  }

  class ReadingSlide {
    const questions: Questions
    var answers: AnswerRecords
    var feedback: Feedback
    var score: Option<int>

    /** Every record back to its initial value. */
    predicate Pristine()
      reads this
    {
      answers == FreshAnswers(questions) && feedback == FreshFeedback(questions) && score == None
    }

    constructor(questions: Questions)
      ensures this.questions == questions
      ensures Pristine()
    {
      this.questions := questions;
      answers := FreshAnswers(questions);
      feedback := FreshFeedback(questions);
      score := None;
    }

    /** `toggleItemSelection(questionId, itemKey)` */
    method ToggleItemSelection(questionId: string, itemKey: string)
      modifies this
      ensures answers == old(answers).(multiSelectItem := ToggleIn(old(answers).multiSelectItem, questionId, itemKey))
      ensures feedback == old(feedback) && score == old(score)
    {
      answers := answers.(multiSelectItem := ToggleIn(answers.multiSelectItem, questionId, itemKey));
    }

    /** `gradeTest()`: one pass per kind over fresh feedback records, then the
        score. */
    method GradeTest()
      modifies this
      ensures answers == old(answers)
      ensures feedback == GradedFeedback(questions, answers)
      ensures score == Some(ScoreOf(CorrectCount(questions, answers), TotalGraded(questions)))
      ensures 0 <= score.value <= 100
    {
      var fb, s := Grade(questions, answers);
      feedback := fb;
      score := Some(s);
    }

    /** `resetTest()` */
    method ResetTest()
      modifies this
      ensures Pristine()
    {
      answers := FreshAnswers(questions);
      feedback := FreshFeedback(questions);
      score := None;
    }
  }
}
