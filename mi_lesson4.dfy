/**
 * The reading assessment of lesson 4 of the multiple-intelligence course:
 * fixed question data, four graded kinds (five questions each), short
 * answers left ungraded, and a score out of 100.
 */
module MiLesson4 {
  import opened Wrappers
  import opened Grading
  import opened Text
  import opened Answers

  const SingleChoice: seq<Question> := [
    Question("sc1", Exact("narrow-focus")), Question("sc2", Exact("varied-profile")),
    Question("sc3", Exact("eight")), Question("sc4", Exact("drawing")),
    Question("sc5", Exact("speculative"))]

  const TfNg: seq<Question> := [
    Question("tfng1", Exact("true")), Question("tfng2", Exact("false")),
    Question("tfng3", Exact("not_given")), Question("tfng4", Exact("true")),
    Question("tfng5", Exact("false"))]

  const Matching: seq<Question> := [
    Question("match1", Exact("paragraph1")), Question("match2", Exact("paragraph2")),
    Question("match3", Exact("paragraph3")), Question("match4", Exact("paragraph4")),
    Question("match5", Exact("paragraph5"))]

  const SummaryQuestions: seq<Question> := [
    Question("summary1", Summary(["linguistic and logical-mathematical", "language and logical-mathematical"])),
    Question("summary2", Summary(["way", "manner"])),
    Question("summary3", Summary(["other people", "others"])),
    Question("summary4", Summary(["other", "other intelligence", "other intelligences"])),
    Question("summary5", Summary(["mind", "learner"]))]

  const ShortAnswerIds: seq<string> := ["sa1", "sa2", "sa3", "sa4", "sa5"]

  /** The four graded lists and the short-answer ids. */
  datatype Questions = Questions(
    singleChoice: seq<Question>, tfng: seq<Question>, matching: seq<Question>,
    summary: seq<Question>, shortAnswer: seq<string>)

  const Lesson4 := Questions(SingleChoice, TfNg, Matching, SummaryQuestions, ShortAnswerIds)

  /** The graded total: short answers are not graded. */
  function TotalGraded(q: Questions): nat {
    |q.singleChoice| + |q.tfng| + |q.matching| + |q.summary|
  }

  /** Five questions of each graded kind. */
  predicate FivePerKind(q: Questions) {
    |q.singleChoice| == 5 && |q.tfng| == 5 && |q.matching| == 5 && |q.summary| == 5
  }

  lemma TotalIsTwenty()
    ensures FivePerKind(Lesson4) && TotalGraded(Lesson4) == 20
  {
  }

  /** The page's score: `Math.round(correct / 20 * 100)`, that is five
      points per correct answer. */
  function Score(correct: nat): (r: int)
    requires correct <= 20
    ensures r == 5 * correct && 0 <= r <= 100
  {
    RoundPercentNearest(correct, 20);
    RoundPercent(correct, 20)
  }

  datatype Feedback = Feedback(
    singleChoice: map<string, Option<bool>>,
    tfng: map<string, Option<bool>>,
    matching: map<string, Option<bool>>,
    summary: map<string, Option<bool>>)

  function FreshFeedback(q: Questions): Feedback {
    Feedback(Record(Ids(q.singleChoice), None), Record(Ids(q.tfng), None),
             Record(Ids(q.matching), None), Record(Ids(q.summary), None))
  }

  /** The four graded answer records. */
  datatype AnswerRecords = AnswerRecords(singleChoice: map<string, string>, tfng: map<string, string>,
                             matching: map<string, string>, summary: map<string, string>)

  /** The correct answers over the four graded kinds. */
  function CorrectCount(q: Questions, a: AnswerRecords): (n: nat)
    ensures n <= TotalGraded(q)
  {
    CountCorrect(q.singleChoice, a.singleChoice, map[]) + CountCorrect(q.tfng, a.tfng, map[])
    + CountCorrect(q.matching, a.matching, map[]) + CountCorrect(q.summary, a.summary, map[])
  }

  /** What grading writes: the feedback records and the score. */
  datatype Assessment = Assessment(feedback: Feedback, score: Option<int>)

  /** Each question's verdict written over a fresh record. */
  function GradedFeedback(q: Questions, a: AnswerRecords): Feedback {
    var f := FreshFeedback(q);
    Feedback(
      Written(f.singleChoice, q.singleChoice, a.singleChoice, map[]),
      Written(f.tfng, q.tfng, a.tfng, map[]),
      Written(f.matching, q.matching, a.matching, map[]),
      Written(f.summary, q.summary, a.summary, map[]))
  }

  /** The graded feedback, and the score of the correct count out of twenty. */
  function AssessmentOf(q: Questions, a: AnswerRecords): Assessment
    requires FivePerKind(q)
  {
    Assessment(GradedFeedback(q, a), Some(Score(CorrectCount(q, a))))
  }

  /** The grading pass of `gradeTest()`, then the score. */
  method Grade(q: Questions, a: AnswerRecords) returns (r: Assessment)
    requires FivePerKind(q)
    ensures r == AssessmentOf(q, a)
  {
    var correct, fb := GradeKinds(q, a);
    var total := |q.singleChoice| + |q.tfng| + |q.matching| + |q.summary|;
    assert total == 20;
    r := Assessment(fb, Some(RoundPercent(correct, total)));
  }

  /** The four `forEach` passes: the verdicts and the number correct. */
  method GradeKinds(q: Questions, a: AnswerRecords) returns (correct: nat, fb: Feedback)
    ensures correct == CorrectCount(q, a)
    ensures fb == GradedFeedback(q, a)
  {
    var f := FreshFeedback(q);
    var c1, f1 := GradeList(q.singleChoice, a.singleChoice, map[], f.singleChoice);
    var c2, f2 := GradeList(q.tfng, a.tfng, map[], f.tfng);
    var c3, f3 := GradeList(q.matching, a.matching, map[], f.matching);
    var c4, f4 := GradeList(q.summary, a.summary, map[], f.summary);
    correct := c1 + c2 + c3 + c4;
    fb := Feedback(f1, f2, f3, f4);
  }

  /** The score counts the feedback entries that grading set to `true`: five
      points each, as long as no kind repeats a question id. */
  lemma AssessmentCountsTrueEntries(q: Questions, a: AnswerRecords)
    requires FivePerKind(q)
    requires Distinct(q.singleChoice) && Distinct(q.tfng) && Distinct(q.matching) && Distinct(q.summary)
    ensures var r := AssessmentOf(q, a);
      r.score == Some(5 * (TrueCount(r.feedback.singleChoice, q.singleChoice) + TrueCount(r.feedback.tfng, q.tfng)
                           + TrueCount(r.feedback.matching, q.matching) + TrueCount(r.feedback.summary, q.summary)))
  {
    var f := FreshFeedback(q);
    TrueEntriesMatchCount(f.singleChoice, q.singleChoice, a.singleChoice, map[]);
    TrueEntriesMatchCount(f.tfng, q.tfng, a.tfng, map[]);
    TrueEntriesMatchCount(f.matching, q.matching, a.matching, map[]);
    TrueEntriesMatchCount(f.summary, q.summary, a.summary, map[]);
  }

  /** Every graded question id mapped to ''. */
  function FreshAnswers(q: Questions): AnswerRecords {
    AnswerRecords(Record(Ids(q.singleChoice), ""), Record(Ids(q.tfng), ""),
                  Record(Ids(q.matching), ""), Record(Ids(q.summary), ""))
  }

  class ReadingAssessment {
    const questions: Questions
    /** The four graded `useState` records. */
    var answers: AnswerRecords
    var shortAnswers: map<string, string>
    var feedback: Feedback
    var score: Option<int>

    /** The initial records: every question id mapped to '' and every
        feedback entry to `null`, and no score. */
    constructor()
      ensures questions == Lesson4
      ensures answers == FreshAnswers(Lesson4) && shortAnswers == Record(ShortAnswerIds, "")
      ensures feedback == FreshFeedback(Lesson4) && score == None
    {
      questions := Lesson4;
      answers := FreshAnswers(Lesson4);
      shortAnswers := Record(ShortAnswerIds, "");
      feedback := FreshFeedback(Lesson4);
      score := None;
    }

    /** `gradeTest()`: the verdicts into fresh feedback records, and the
        score out of 100. */
    method GradeTest()
      requires FivePerKind(questions)
      modifies this
      ensures Assessment(feedback, score) == AssessmentOf(questions, old(answers))
      ensures answers == old(answers) && shortAnswers == old(shortAnswers)
    {
      var a := Grade(questions, answers);
      feedback, score := a.feedback, a.score;
    }
  }

  /** On the initial answers no exact question is correct, since no correct
      value is empty. */
  lemma InitialAnswersScoreZero()
    ensures CorrectCount(Lesson4, FreshAnswers(Lesson4)) == 0
  {
    RejectsEmpty(SingleChoice);
    RejectsEmpty(TfNg);
    RejectsEmpty(Matching);
    RejectsEmpty(SummaryQuestions);
  }

  /** A list of questions none of which accepts an empty answer. */
  lemma RejectsEmpty(qs: seq<Question>)
    requires qs == SingleChoice || qs == TfNg || qs == Matching || qs == SummaryQuestions
    ensures CountCorrect(qs, Record(Ids(qs), ""), map[]) == 0
  {
    assert forall k :: 0 <= k < |qs| ==> (qs[k].rule.Exact? && qs[k].rule.correct != "") || qs[k].rule.Summary?;
    AllWrongCountsZero(qs, Record(Ids(qs), ""));
  }

  /** Questions whose rule rejects the empty answer count nothing on a record
      of empty answers. */
  lemma {:induction false} AllWrongCountsZero(qs: seq<Question>, text: map<string, string>)
    requires forall id :: id in text ==> text[id] == ""
    requires forall k :: 0 <= k < |qs| ==> (qs[k].rule.Exact? && qs[k].rule.correct != "") || qs[k].rule.Summary?
    ensures CountCorrect(qs, text, map[]) == 0
    decreases |qs|
  {
    if qs != [] {
      var last := |qs| - 1;
      AllWrongCountsZero(qs[..last], text);
      if qs[last].rule.Summary? {
        var ans := if qs[last].id in text then text[qs[last].id] else "";
        BlankSummaryWrong(ans, qs[last].rule.accepted);
      }
    }
  }
}
