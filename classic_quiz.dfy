/**
 * The classic quiz activity (`ClassicQuizGame`): questions are drawn at
 * random, with repetition, from a fixed list. A fill-in-the-blank question
 * is judged on the typed text, every other kind on the chosen option. Each
 * judged answer adds to exactly one of the two on-screen counters, and
 * 2 s later the next question is drawn.
 */
module ClassicQuiz {
  import opened Wrappers
  import opened Text
  import Answers
  import GameStore

  datatype QuestionType = MultipleChoice | Listening | FillBlank | ImageChoice | ImageToVietnamese

  datatype Question = Question(kind: QuestionType, question: string, correctAnswer: string,
                               options: Option<seq<string>>, wordToSpeak: Option<string>, image: Option<string>)

  datatype Feedback = NoFeedback | Right | Wrong(correctAnswer: string)

  /** The feedback line under the question. */
  function FeedbackText(f: Feedback): (r: string)
    ensures r == "" <==> f == NoFeedback
    ensures f.Wrong? ==> Contains(r, f.correctAnswer)
  {
    match f
    case NoFeedback => ""
    case Right => "✅ Chính xác!"
    case Wrong(answer) =>
      var prefix := "❌ Sai! Đáp án đúng: \"";
      var r := prefix + answer + "\"";
      assert r[|prefix|..|prefix| + |answer|] == answer;
      ContainsAt(r, answer, |prefix|);
      r
  }

  /** The decision of `handleSubmitAnswer`. */
  predicate IsCorrect(q: Question, userAnswer: string, selectedOption: Option<string>) {
    if q.kind == FillBlank then Answers.TypedMatches(userAnswer, q.correctAnswer)
    else selectedOption == Some(q.correctAnswer)
  }

  /** A blank is judged on the typed text alone, any other question on the
      chosen option alone; without a chosen option it is never right. */
  lemma JudgedOnOwnInput(q: Question, userAnswer: string, otherAnswer: string,
                         selectedOption: Option<string>, otherOption: Option<string>)
    ensures q.kind == FillBlank ==>
      IsCorrect(q, userAnswer, selectedOption) == IsCorrect(q, userAnswer, otherOption)
    ensures q.kind != FillBlank ==>
      IsCorrect(q, userAnswer, selectedOption) == IsCorrect(q, otherAnswer, selectedOption)
    ensures q.kind != FillBlank ==> !IsCorrect(q, userAnswer, None)
    ensures q.kind != FillBlank ==> (IsCorrect(q, userAnswer, selectedOption) <==> selectedOption == Some(q.correctAnswer))
  {
  }

  /** A blank accepts its answer typed with surrounding spaces or in capitals,
      when the stored answer has no surrounding spaces. */
  lemma BlankAcceptsItsAnswer(q: Question, pad: string)
    requires q.kind == FillBlank && Unpadded(q.correctAnswer)
    requires forall i :: 0 <= i < |pad| ==> IsSpace(pad[i])
    ensures IsCorrect(q, pad + q.correctAnswer + pad, None)
    ensures IsCorrect(q, pad + ToUpper(q.correctAnswer) + pad, None)
  {
    Answers.TypedMatchesOwnAnswer(q.correctAnswer, pad);
  }

  /** The question state: the two counters, the current question, the typed
      text, the chosen option, the feedback and the submitting flag. */
  datatype Round = Round(correctCount: nat, incorrectCount: nat, currentQuestion: Option<Question>,
                         userAnswer: string, selectedOption: Option<string>, feedback: Feedback,
                         isSubmitting: bool)

  const NoRound := Round(0, 0, None, "", None, NoFeedback, false)

  /** A freshly drawn question with nothing typed, chosen or shown. */
  function WithQuestion(r: Round, q: Question): (s: Round)
    ensures s.currentQuestion == Some(q) && s.userAnswer == "" && s.selectedOption == None
    ensures s.feedback == NoFeedback && !s.isSubmitting
    ensures s.correctCount == r.correctCount && s.incorrectCount == r.incorrectCount
  {
    r.(currentQuestion := Some(q), userAnswer := "", selectedOption := None, feedback := NoFeedback,
       isSubmitting := false)
  }

  /** `handleSubmitAnswer`: nothing without a question or while submitting;
      otherwise exactly one counter goes up, the right one. */
  function Submitted(r: Round): (s: Round)
    ensures r.currentQuestion == None || r.isSubmitting ==> s == r
    ensures r.currentQuestion.Some? && !r.isSubmitting ==>
      var right := IsCorrect(r.currentQuestion.value, r.userAnswer, r.selectedOption);
      s.isSubmitting && s.currentQuestion == r.currentQuestion
      && s.userAnswer == r.userAnswer && s.selectedOption == r.selectedOption
      && s.correctCount + s.incorrectCount == r.correctCount + r.incorrectCount + 1
      && (s.correctCount == r.correctCount + 1 <==> right)
      && (s.incorrectCount == r.incorrectCount + 1 <==> !right)
      && s.feedback == (if right then Right else Wrong(r.currentQuestion.value.correctAnswer))
  {
    if r.currentQuestion == None || r.isSubmitting then r
    else
      var q := r.currentQuestion.value;
      if IsCorrect(q, r.userAnswer, r.selectedOption) then
        r.(isSubmitting := true, feedback := Right, correctCount := r.correctCount + 1)
      else
        r.(isSubmitting := true, feedback := Wrong(q.correctAnswer), incorrectCount := r.incorrectCount + 1)
  }

  function SubmittedStore(r: Round, store: GameStore.GameState): (s: GameStore.GameState)
    ensures r.currentQuestion == None || r.isSubmitting ==> s == store
    ensures r.currentQuestion.Some? && !r.isSubmitting ==>
      s == if IsCorrect(r.currentQuestion.value, r.userAnswer, r.selectedOption)
           then GameStore.AnswerCorrect(store) else GameStore.AnswerIncorrect(store)
  {
    if r.currentQuestion == None || r.isSubmitting then store
    else if IsCorrect(r.currentQuestion.value, r.userAnswer, r.selectedOption) then GameStore.AnswerCorrect(store)
    else GameStore.AnswerIncorrect(store)
  }

  /** Submitting twice counts once. */
  lemma SubmitOnce(r: Round, store: GameStore.GameState)
    ensures Submitted(Submitted(r)) == Submitted(r)
    ensures r.currentQuestion.Some? && !r.isSubmitting ==>
      SubmittedStore(Submitted(r), SubmittedStore(r, store)) == SubmittedStore(r, store)
  {
  }

  /** The counters on screen agree with the store's. */
  ghost predicate CountersAgree(r: Round, store: GameStore.GameState) {
    store.correctAnswers == r.correctCount && store.incorrectAnswers == r.incorrectCount
  }

  lemma SubmitKeepsAgreement(r: Round, store: GameStore.GameState)
    requires CountersAgree(r, store)
    ensures CountersAgree(Submitted(r), SubmittedStore(r, store))
  {
  }

  class ClassicQuizGameCore {
    const questionsData: seq<Question>
    var round: Round
    var isGameStarted: bool
    var store: GameStore.GameState

    /** Once started, the counters agree with the store; the question always
        comes from the list. */
    ghost predicate Valid()
      reads this
    {
      (isGameStarted ==> CountersAgree(round, store))
      && (round.currentQuestion.Some? ==> round.currentQuestion.value in questionsData)
      && (round.isSubmitting ==> round.currentQuestion.Some?)
    }

    constructor(questions: seq<Question>, initialStore: GameStore.GameState)
      ensures Valid() && questionsData == questions && round == NoRound && !isGameStarted
      ensures store == initialStore
    {
      questionsData := questions;
      round := NoRound;
      isGameStarted := false;
      store := initialStore;
    }

    /** `getRandomQuestion`: some entry of the list, the choice left open. */
    method RandomQuestion() returns (q: Question)
      requires |questionsData| > 0
      ensures q in questionsData
    {
      var i :| 0 <= i < |questionsData|;
      q := questionsData[i];
    }

    /** `startGame`: both counters to zero, the store reset, a first
        question drawn. */
    method StartGame()
      requires |questionsData| > 0
      modifies this
      ensures Valid() && isGameStarted && store == GameStore.ResetGame(old(store))
      ensures round.correctCount == 0 && round.incorrectCount == 0
      ensures round.currentQuestion.Some? && round == WithQuestion(NoRound, round.currentQuestion.value)
      ensures round.currentQuestion.value in questionsData
    {
      var q := RandomQuestion();
      round := WithQuestion(NoRound, q);
      isGameStarted := true;
      store := GameStore.ResetGame(store);
    }

    /** The text input, disabled while submitting. */
    method TypeAnswer(text: string)
      requires Valid()
      modifies this
      ensures Valid() && store == old(store) && isGameStarted == old(isGameStarted)
      ensures round == if old(round).isSubmitting then old(round) else old(round).(userAnswer := text)
    {
      if !round.isSubmitting {
        round := round.(userAnswer := text);
      }
    }

    /** An option button: `!isSubmitting && setSelectedOption(option)`. */
    method SelectOption(option: string)
      requires Valid()
      modifies this
      ensures Valid() && store == old(store) && isGameStarted == old(isGameStarted)
      ensures round == if old(round).isSubmitting then old(round) else old(round).(selectedOption := Some(option))
    {
      if !round.isSubmitting {
        round := round.(selectedOption := Some(option));
      }
    }

    /** `handleSubmitAnswer`; the next question follows as `NextQuestion`. */
    method SubmitAnswer()
      requires Valid()
      modifies this
      ensures Valid() && round == Submitted(old(round)) && store == SubmittedStore(old(round), old(store))
      ensures isGameStarted == old(isGameStarted)
    {
      store := SubmittedStore(round, store);
      round := Submitted(round);
    }

    /** Enter in the blank's input submits unless submitting. */
    method KeyDown(key: string)
      requires Valid()
      modifies this
      ensures Valid() && isGameStarted == old(isGameStarted)
      ensures key == "Enter" ==> round == Submitted(old(round)) && store == SubmittedStore(old(round), old(store))
      ensures key != "Enter" ==> round == old(round) && store == old(store)
    {
      if key == "Enter" && !round.isSubmitting {
        SubmitAnswer();
      }
    }

    /** The 2 s timeout after a submission: a new question, the inputs
        cleared, the counters kept. */
    method NextQuestion()
      requires Valid() && |questionsData| > 0
      modifies this
      ensures Valid() && store == old(store) && isGameStarted == old(isGameStarted)
      ensures round.currentQuestion.Some? && round == WithQuestion(old(round), round.currentQuestion.value)
    {
      var q := RandomQuestion();
      round := WithQuestion(round, q);
    }

    /** `replayAudio`: the word of the question, when it has one. */
    method ReplayAudio() returns (spoken: Option<string>)
      ensures spoken == if round.currentQuestion.Some? then round.currentQuestion.value.wordToSpeak else None
    {
      spoken := if round.currentQuestion.Some? then round.currentQuestion.value.wordToSpeak else None;
    }
  }
}
