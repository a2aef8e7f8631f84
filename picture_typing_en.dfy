/**
 * The picture game that shows an image and its Vietnamese meaning and asks
 * for the English word to be typed (`PictureTypingEnGame`). Every vocabulary
 * item is asked once, in random order; the typed word is trimmed and lowered
 * and compared with the lowered word.
 */
module PictureTypingEn {
  import opened Wrappers
  import opened Text
  import Answers
  import Shuffle
  import GameStore

  datatype VocabItem = VocabItem(word: string, vietnameseMeaning: string, image: Option<string>)

  datatype Question = Question(image: string, vietnamese: string, correct: string)

  /** `{ image: word.image || '', vietnamese: ..., correct: word.word }` */
  function QuestionOf(v: VocabItem): Question {
    Question(if v.image.Some? then v.image.value else "", v.vietnameseMeaning, v.word)
  }

  /** `createQuestions`: one question per item, shuffled. */
  method CreateQuestions(words: seq<VocabItem>) returns (qs: seq<Question>)
    ensures |qs| == |words|
    ensures multiset(qs) == multiset(Shuffle.MapSeq(QuestionOf, words))
  {
    qs := Shuffle.Shuffle(Shuffle.MapSeq(QuestionOf, words));
  }

  /** Every item of the vocabulary is asked, as many times as it occurs. */
  lemma EveryItemAsked(words: seq<VocabItem>, qs: seq<Question>, v: VocabItem)
    requires multiset(qs) == multiset(Shuffle.MapSeq(QuestionOf, words))
    requires v in words
    ensures QuestionOf(v) in qs
  {
    MappedMember(words, v);
    assert QuestionOf(v) in multiset(qs);
  }

  lemma {:induction false} MappedMember(words: seq<VocabItem>, v: VocabItem)
    requires v in words
    ensures QuestionOf(v) in Shuffle.MapSeq(QuestionOf, words)
  {
    if words[0] != v {
      MappedMember(words[1..], v);
    }
  }

  datatype Feedback = NoFeedback | Right(word: string) | Wrong(word: string)

  datatype Play = Play(questions: seq<Question>, currentQuestionIndex: int, score: int,
                       isAnswering: bool, userAnswer: string, feedback: Feedback)

  ghost predicate PlayOk(p: Play) {
    p.score >= 0 && p.currentQuestionIndex >= 0
  }

  const NoPlay := Play([], 0, 0, false, "", NoFeedback)

  predicate HasCurrent(p: Play) {
    0 <= p.currentQuestionIndex < |p.questions|
  }

  function StartPlay(qs: seq<Question>): (p: Play)
    ensures PlayOk(p) && p.questions == qs && p.currentQuestionIndex == 0 && p.score == 0
    ensures !p.isAnswering && p.userAnswer == "" && p.feedback == NoFeedback
    ensures HasCurrent(p) <==> |qs| > 0
  {
    Play(qs, 0, 0, false, "", NoFeedback)
  }

  /** The input takes the typed text; it is disabled while answering. */
  function Typed(p: Play, text: string): (r: Play)
    ensures p.isAnswering ==> r == p
    ensures !p.isAnswering ==> r == p.(userAnswer := text)
  {
    if p.isAnswering then p else p.(userAnswer := text)
  }

  /** `submitAnswer`: ignored while answering or without a question;
      otherwise the round locks and a right answer scores one point. */
  function Submitted(p: Play): (r: Play)
    requires PlayOk(p)
    ensures PlayOk(r) && r.questions == p.questions && r.currentQuestionIndex == p.currentQuestionIndex
    ensures r.userAnswer == p.userAnswer
    ensures p.isAnswering || !HasCurrent(p) ==> r == p
    ensures !p.isAnswering && HasCurrent(p) ==>
      var word := p.questions[p.currentQuestionIndex].correct;
      r.isAnswering
      && (r.score == p.score + 1 <==> Answers.TypedMatches(p.userAnswer, word))
      && (r.score == p.score <==> !Answers.TypedMatches(p.userAnswer, word))
      && r.feedback == (if Answers.TypedMatches(p.userAnswer, word) then Right(word) else Wrong(word))
  {
    if p.isAnswering || !HasCurrent(p) then p
    else
      var word := p.questions[p.currentQuestionIndex].correct;
      if Answers.TypedMatches(p.userAnswer, word) then
        p.(isAnswering := true, score := p.score + 1, feedback := Right(word))
      else p.(isAnswering := true, feedback := Wrong(word))
  }

  function SubmittedStore(p: Play, store: GameStore.GameState): (s: GameStore.GameState)
    ensures p.isAnswering || !HasCurrent(p) ==> s == store
    ensures !p.isAnswering && HasCurrent(p) && Answers.TypedMatches(p.userAnswer, p.questions[p.currentQuestionIndex].correct)
      ==> s == GameStore.AnswerCorrect(store)
    ensures !p.isAnswering && HasCurrent(p) && !Answers.TypedMatches(p.userAnswer, p.questions[p.currentQuestionIndex].correct)
      ==> s == GameStore.AnswerIncorrect(store)
  {
    if p.isAnswering || !HasCurrent(p) then store
    else if Answers.TypedMatches(p.userAnswer, p.questions[p.currentQuestionIndex].correct) then GameStore.AnswerCorrect(store)
    else GameStore.AnswerIncorrect(store)
  }

  /** The word typed as it is stored, in capitals or with white space around
      it, scores, provided the stored word carries no padding. */
  lemma TypedWordScores(p: Play, pad: string)
    requires PlayOk(p) && HasCurrent(p) && !p.isAnswering
    requires forall i :: 0 <= i < |pad| ==> IsSpace(pad[i])
    requires Unpadded(p.questions[p.currentQuestionIndex].correct)
    ensures var word := p.questions[p.currentQuestionIndex].correct;
      Submitted(p.(userAnswer := pad + word + pad)).score == p.score + 1
      && Submitted(p.(userAnswer := pad + ToUpper(word) + pad)).score == p.score + 1
  {
    Answers.TypedMatchesOwnAnswer(p.questions[p.currentQuestionIndex].correct, pad);
  }

  function Advanced(p: Play): (r: Play)
    requires PlayOk(p) && p.currentQuestionIndex + 1 < |p.questions|
    ensures PlayOk(r) && r.questions == p.questions && r.score == p.score && HasCurrent(r)
    ensures r.currentQuestionIndex == p.currentQuestionIndex + 1
    ensures !r.isAnswering && r.userAnswer == "" && r.feedback == NoFeedback
  {
    p.(currentQuestionIndex := p.currentQuestionIndex + 1, isAnswering := false, userAnswer := "",
       feedback := NoFeedback)
  }

  method NewGame(vocab: seq<VocabItem>, oldStore: GameStore.GameState)
    returns (p: Play, store: GameStore.GameState)
    ensures PlayOk(p) && p == StartPlay(p.questions)
    ensures multiset(p.questions) == multiset(Shuffle.MapSeq(QuestionOf, vocab))
    ensures store == GameStore.SetTotalQuestions(GameStore.ResetGame(oldStore), |vocab|)
  {
    var newQuestions := CreateQuestions(vocab);
    p := StartPlay(newQuestions);
    store := GameStore.SetTotalQuestions(GameStore.ResetGame(oldStore), |vocab|);
  }

  class PictureTypingGame {
    const vocabWords: seq<VocabItem>
    var play: Play
    var isGameStarted: bool
    var isGameOver: bool
    var timer: nat
    var timerRunning: bool
    var store: GameStore.GameState

    ghost predicate Valid()
      reads this
    {
      PlayOk(play)
    }

    constructor(vocabData: seq<VocabItem>, initialStore: GameStore.GameState)
      ensures Valid() && vocabWords == vocabData && play == NoPlay
      ensures !isGameStarted && !isGameOver && timer == 0 && !timerRunning
      ensures store == GameStore.ResetGame(GameStore.SetTotalQuestions(initialStore, |vocabData|))
    {
      vocabWords := vocabData;
      play := NoPlay;
      isGameStarted := false;
      isGameOver := false;
      timer := 0;
      timerRunning := false;
      store := GameStore.ResetGame(GameStore.SetTotalQuestions(initialStore, |vocabData|));
    }

    method Tick()
      requires timerRunning
      modifies this
      ensures timer == old(timer) + 1 && timerRunning && play == old(play) && store == old(store)
      ensures isGameStarted == old(isGameStarted) && isGameOver == old(isGameOver)
    {
      timer := timer + 1;
    }

    /** `startGame`: every item once in a new order, the clock from 0, the
        store reset with the item count as total. */
    method StartGame()
      modifies this
      ensures Valid() && isGameStarted && !isGameOver && timer == 0 && timerRunning
      ensures play == StartPlay(play.questions)
      ensures multiset(play.questions) == multiset(Shuffle.MapSeq(QuestionOf, vocabWords))
      ensures store == GameStore.SetTotalQuestions(GameStore.ResetGame(old(store)), |vocabWords|)
    {
      play, store := NewGame(vocabWords, store);
      isGameStarted := true;
      isGameOver := false;
      timer := 0;
      timerRunning := true;
    }

    /** `restartGame`: back to the start screen; the clock stops but keeps
        its reading. */
    method RestartGame()
      modifies this
      ensures Valid() && play == NoPlay && !isGameStarted && !isGameOver
      ensures !timerRunning && timer == old(timer) && store == GameStore.ResetGame(old(store))
    {
      timerRunning := false;
      isGameStarted := false;
      isGameOver := false;
      play := NoPlay;
      store := GameStore.ResetGame(store);
    }

    method TypeAnswer(text: string)
      requires Valid()
      modifies this
      ensures Valid() && play == Typed(old(play), text) && store == old(store)
      ensures timer == old(timer) && timerRunning == old(timerRunning)
      ensures isGameStarted == old(isGameStarted) && isGameOver == old(isGameOver)
    {
      play := Typed(play, text);
    }

    /** `submitAnswer`; the move on follows 2 s later as `NextQuestion`. */
    method SubmitAnswer()
      requires Valid()
      modifies this
      ensures Valid() && play == Submitted(old(play)) && store == SubmittedStore(old(play), old(store))
      ensures timer == old(timer) && timerRunning == old(timerRunning)
      ensures isGameStarted == old(isGameStarted) && isGameOver == old(isGameOver)
    {
      store := SubmittedStore(play, store);
      play := Submitted(play);
    }

    /** `nextQuestion`: the next question, or game over with the clock
        stopped after the last. */
    method NextQuestion()
      requires Valid()
      modifies this
      ensures Valid() && store == old(store) && timer == old(timer) && isGameStarted == old(isGameStarted)
      ensures old(play).currentQuestionIndex + 1 < |old(play).questions| ==>
        play == Advanced(old(play)) && isGameOver == old(isGameOver) && timerRunning == old(timerRunning)
      ensures old(play).currentQuestionIndex + 1 >= |old(play).questions| ==>
        play == old(play) && isGameOver && !timerRunning
    {
      if play.currentQuestionIndex + 1 < |play.questions| {
        play := Advanced(play);
      } else {
        isGameOver := true;
        timerRunning := false;
      }
    }

    /** `handleKeyPress`: Enter submits while the input is open and moves on
        otherwise; every other key does nothing. */
    method KeyDown(key: string)
      requires Valid()
      modifies this
      ensures Valid() && timer == old(timer) && isGameStarted == old(isGameStarted)
      ensures key != "Enter" ==>
        play == old(play) && store == old(store) && isGameOver == old(isGameOver) && timerRunning == old(timerRunning)
      ensures key == "Enter" && !old(play).isAnswering ==>
        play == Submitted(old(play)) && store == SubmittedStore(old(play), old(store))
        && isGameOver == old(isGameOver) && timerRunning == old(timerRunning)
      ensures key == "Enter" && old(play).isAnswering && old(play).currentQuestionIndex + 1 < |old(play).questions| ==>
        play == Advanced(old(play)) && store == old(store)
        && isGameOver == old(isGameOver) && timerRunning == old(timerRunning)
      ensures key == "Enter" && old(play).isAnswering && old(play).currentQuestionIndex + 1 >= |old(play).questions| ==>
        play == old(play) && store == old(store) && isGameOver && !timerRunning
    {
      if key == "Enter" {
        if !play.isAnswering {
          SubmitAnswer();
        } else {
          NextQuestion();
        }
      }
    }

    method CloseResults()
      modifies this
      ensures !isGameOver && isGameStarted == old(isGameStarted) && play == old(play)
      ensures store == old(store) && timer == old(timer) && timerRunning == old(timerRunning)
    {
      isGameOver := false;
    }
  }
}
