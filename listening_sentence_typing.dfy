/**
 * The listening game that reads an example sentence aloud and asks for it to
 * be typed (`ListeningSentenceTypingGame`). Both texts are lowered and kept
 * to the letters a-z and white space before they are compared; the typed
 * text is also trimmed, the expected one is not.
 */
module ListeningSentenceTyping {
  import opened Wrappers
  import opened Text
  import Answers
  import Shuffle
  import GameStore

  datatype VocabItem = VocabItem(word: string, pronunciation: Option<string>, sampleSentence: Option<string>)

  datatype Question = Question(sentence: string)

  /** `{ sentence: word.sampleSentence || '' }` */
  function QuestionOf(v: VocabItem): Question {
    Question(if v.sampleSentence.Some? then v.sampleSentence.value else "")
  }

  const NoSentence := Question("")

  /** `.filter((q) => q.sentence)`: exactly the questions with an empty
      sentence go, the others stay. */
  function WithSentence(qs: seq<Question>): (r: seq<Question>)
    ensures |r| <= |qs|
    ensures multiset(r) == multiset(qs)[NoSentence := 0]
    ensures forall q :: q in r ==> q.sentence != ""
  {
    if qs == [] then []
    else
      assert qs == [qs[0]] + qs[1..];
      if qs[0].sentence == "" then WithSentence(qs[1..])
      else [qs[0]] + WithSentence(qs[1..])
  }

  /** `createQuestions`: the first `num` items of a shuffle, then only those
      with a sentence. So there are at most `min(num, |words|)` questions,
      each drawn from a different item; with `num` at least the item count,
      every item with a sentence gives exactly one question. */
  method CreateQuestions(words: seq<VocabItem>, num: nat) returns (qs: seq<Question>)
    ensures |qs| <= num && |qs| <= |words|
    ensures forall q :: q in qs ==> q.sentence != ""
    ensures multiset(qs) <= multiset(Shuffle.MapSeq(QuestionOf, words))[NoSentence := 0]
    ensures num >= |words| ==> multiset(qs) == multiset(Shuffle.MapSeq(QuestionOf, words))[NoSentence := 0]
  {
    var all := Shuffle.Shuffle(words);
    var taken := if num < |all| then all[..num] else all;
    var rest := all[|taken|..];
    assert all == taken + rest;
    Shuffle.MapAppend(QuestionOf, taken, rest);
    Shuffle.MapPermute(QuestionOf, all, words);
    var mapped := Shuffle.MapSeq(QuestionOf, taken);
    ghost var whole := Shuffle.MapSeq(QuestionOf, words);
    assert multiset(whole) == multiset(mapped) + multiset(Shuffle.MapSeq(QuestionOf, rest));
    qs := WithSentence(mapped);
    DropFromSum(multiset(mapped), multiset(Shuffle.MapSeq(QuestionOf, rest)), NoSentence);
    if num >= |words| {
      assert rest == [];
    }
  }

  /** Taking every copy of `x` out keeps a part no larger than the whole. */
  lemma DropFromSum<T>(part: multiset<T>, more: multiset<T>, x: T)
    ensures part[x := 0] <= (part + more)[x := 0]
  {
    assert (part + more)[x := 0] == part[x := 0] + more[x := 0];
  }

  /** The typed text: trimmed, lowered, letters and white space only. */
  function UserForm(userAnswer: string): string {
    Answers.LettersAndSpaces(Answers.TrimLower(userAnswer))
  }

  /** The expected text: lowered, letters and white space only, untrimmed. */
  function ExpectedForm(sentence: string): string {
    Answers.LettersAndSpaces(ToLower(sentence))
  }

  predicate AnswerRight(userAnswer: string, sentence: string) {
    UserForm(userAnswer) == ExpectedForm(sentence)
  }

  /** A sentence without padding is right when typed as it stands or in
      capitals, with any white space around it; its punctuation and digits
      never matter because both sides drop them. */
  lemma VerbatimRight(sentence: string, pad: string)
    requires forall i :: 0 <= i < |pad| ==> IsSpace(pad[i])
    requires Unpadded(sentence)
    ensures AnswerRight(pad + sentence + pad, sentence)
    ensures AnswerRight(pad + ToUpper(sentence) + pad, sentence)
  {
    Answers.TrimPadded(sentence, pad);
    Answers.UpperUnpadded(sentence);
    Answers.TrimPadded(ToUpper(sentence), pad);
    Answers.UpperThenLower(sentence);
  }

  /** A sentence stored with a trailing space is wrong even when typed
      exactly as stored: the typed copy loses the space to `trim`, the
      expected one keeps it. */
  lemma PaddedSentenceWrong(w: string)
    requires w != [] && forall i :: 0 <= i < |w| ==> 'a' <= w[i] <= 'z'
    ensures !AnswerRight(w + " ", w + " ")
  {
    var s := w + " ";
    TrimTrailingSpace(w);
    assert UserForm(s) == w by {
      LowerLettersKept(w);
    }
    assert ExpectedForm(s) == s by {
      LowerLettersKept(s);
    }
  }

  lemma TrimTrailingSpace(w: string)
    requires w != [] && Unpadded(w)
    ensures Trim(w + " ") == w
  {
    var s := w + " ";
    assert s[..|w|] == w;
    assert TrimStart(s) == s;
    assert TrimEnd(s) == TrimEnd(w);
  }

  /** Lower-case letters and spaces pass the expected-text form unchanged. */
  lemma LowerLettersKept(s: string)
    requires forall i :: 0 <= i < |s| ==> 'a' <= s[i] <= 'z' || s[i] == ' '
    ensures ExpectedForm(s) == s
  {
    assert ToLower(s) == s;
    KeepAll(s, Answers.IsLetterOrSpace);
  }

  /** The comparison as evidently intended: the expected text trimmed too. */
  function CorrectedExpectedForm(sentence: string): string {
    Answers.LettersAndSpaces(Answers.TrimLower(sentence))
  }

  /** With the expected text trimmed, every sentence, padded or not, is right
      when typed as stored, and its trimmed text is right in its own or in
      capital letters with any white space around it. */
  lemma CorrectedVerbatimRight(sentence: string, pad: string)
    requires forall i :: 0 <= i < |pad| ==> IsSpace(pad[i])
    ensures UserForm(sentence) == CorrectedExpectedForm(sentence)
    ensures UserForm(pad + Trim(sentence) + pad) == CorrectedExpectedForm(sentence)
    ensures UserForm(pad + ToUpper(Trim(sentence)) + pad) == CorrectedExpectedForm(sentence)
  {
    var t := Trim(sentence);
    assert Answers.TrimLower(sentence) == ToLower(t);
    assert UserForm(pad + t + pad) == CorrectedExpectedForm(sentence) by {
      Answers.TrimPadded(t, pad);
    }
    assert UserForm(pad + ToUpper(t) + pad) == CorrectedExpectedForm(sentence) by {
      Answers.UpperUnpadded(t);
      Answers.TrimPadded(ToUpper(t), pad);
      Answers.UpperThenLower(t);
    }
  }

  datatype Feedback = NoFeedback | Right(sentence: string) | Wrong(sentence: string)

  datatype Play = Play(questions: seq<Question>, currentQuestionIndex: int, score: int,
                       isAnswering: bool, userAnswer: string, feedback: Feedback,
                       isPlayingAudio: bool)

  ghost predicate PlayOk(p: Play) {
    p.score >= 0 && p.currentQuestionIndex >= 0
  }

  const NoPlay := Play([], 0, 0, false, "", NoFeedback, false)

  predicate HasCurrent(p: Play) {
    0 <= p.currentQuestionIndex < |p.questions|
  }

  /** `startGame`: the first question, score 0, an empty input. */
  function StartPlay(qs: seq<Question>): (p: Play)
    ensures PlayOk(p) && p.questions == qs && p.currentQuestionIndex == 0 && p.score == 0
    ensures !p.isAnswering && p.userAnswer == "" && p.feedback == NoFeedback && !p.isPlayingAudio
    ensures HasCurrent(p) <==> |qs| > 0
  {
    Play(qs, 0, 0, false, "", NoFeedback, false)
  }

  /** The input takes the typed text; it is disabled while answering. */
  function Typed(p: Play, text: string): (r: Play)
    ensures p.isAnswering ==> r == p
    ensures !p.isAnswering ==> r == p.(userAnswer := text)
  {
    if p.isAnswering then p else p.(userAnswer := text)
  }

  /** `playCurrentSentence`: the sentence to speak, unless audio is already
      playing or there is no question. */
  function Spoken(p: Play): (s: Option<string>)
    ensures s.Some? <==> !p.isPlayingAudio && HasCurrent(p)
    ensures s.Some? ==> s.value == p.questions[p.currentQuestionIndex].sentence
  {
    if p.isPlayingAudio || !HasCurrent(p) then None
    else Some(p.questions[p.currentQuestionIndex].sentence)
  }

  /** `submitAnswer`: ignored while answering or without a question;
      otherwise the round locks and a right answer scores one point. */
  function Submitted(p: Play): (r: Play)
    requires PlayOk(p)
    ensures PlayOk(r) && r.questions == p.questions && r.currentQuestionIndex == p.currentQuestionIndex
    ensures r.userAnswer == p.userAnswer && r.isPlayingAudio == p.isPlayingAudio
    ensures p.isAnswering || !HasCurrent(p) ==> r == p
    ensures !p.isAnswering && HasCurrent(p) ==>
      var sentence := p.questions[p.currentQuestionIndex].sentence;
      r.isAnswering
      && (r.score == p.score + 1 <==> AnswerRight(p.userAnswer, sentence))
      && (r.score == p.score <==> !AnswerRight(p.userAnswer, sentence))
      && r.feedback == (if AnswerRight(p.userAnswer, sentence) then Right(sentence) else Wrong(sentence))
  {
    if p.isAnswering || !HasCurrent(p) then p
    else
      var sentence := p.questions[p.currentQuestionIndex].sentence;
      if AnswerRight(p.userAnswer, sentence) then
        p.(isAnswering := true, score := p.score + 1, feedback := Right(sentence))
      else p.(isAnswering := true, feedback := Wrong(sentence))
  }

  /** The store after a submission: one correct or one incorrect answer. */
  function SubmittedStore(p: Play, store: GameStore.GameState): (s: GameStore.GameState)
    ensures p.isAnswering || !HasCurrent(p) ==> s == store
    ensures !p.isAnswering && HasCurrent(p) && AnswerRight(p.userAnswer, p.questions[p.currentQuestionIndex].sentence)
      ==> s == GameStore.AnswerCorrect(store)
    ensures !p.isAnswering && HasCurrent(p) && !AnswerRight(p.userAnswer, p.questions[p.currentQuestionIndex].sentence)
      ==> s == GameStore.AnswerIncorrect(store)
  {
    if p.isAnswering || !HasCurrent(p) then store
    else if AnswerRight(p.userAnswer, p.questions[p.currentQuestionIndex].sentence) then GameStore.AnswerCorrect(store)
    else GameStore.AnswerIncorrect(store)
  }

  /** A second submission changes neither the play nor the store. */
  lemma SubmitOnce(p: Play, store: GameStore.GameState)
    requires PlayOk(p)
    ensures Submitted(Submitted(p)) == Submitted(p)
    ensures SubmittedStore(Submitted(p), store) == store
  {
  }

  /** `nextQuestion` when a next question exists: it opens with an empty
      input and no feedback. */
  function Advanced(p: Play): (r: Play)
    requires PlayOk(p) && p.currentQuestionIndex + 1 < |p.questions|
    ensures PlayOk(r) && r.questions == p.questions && r.score == p.score && HasCurrent(r)
    ensures r.currentQuestionIndex == p.currentQuestionIndex + 1
    ensures !r.isAnswering && r.userAnswer == "" && r.feedback == NoFeedback && !r.isPlayingAudio
  {
    p.(currentQuestionIndex := p.currentQuestionIndex + 1, isAnswering := false, userAnswer := "",
       feedback := NoFeedback, isPlayingAudio := false)
  }

  /** What `startGame` and `restartGame` set up. */
  ghost predicate NewGameFacts(vocab: seq<VocabItem>, num: nat, oldStore: GameStore.GameState,
                               p: Play, store: GameStore.GameState) {
    p == StartPlay(p.questions)
    && |p.questions| <= num && |p.questions| <= |vocab|
    && (forall q :: q in p.questions ==> q.sentence != "")
    && multiset(p.questions) <= multiset(Shuffle.MapSeq(QuestionOf, vocab))[NoSentence := 0]
    && store == GameStore.SetTotalQuestions(GameStore.ResetGame(oldStore), |p.questions|)
  }

  method NewGame(vocab: seq<VocabItem>, num: nat, oldStore: GameStore.GameState)
    returns (p: Play, store: GameStore.GameState)
    ensures PlayOk(p) && NewGameFacts(vocab, num, oldStore, p, store)
  {
    var newQuestions := CreateQuestions(vocab, num);
    p := StartPlay(newQuestions);
    store := GameStore.SetTotalQuestions(GameStore.ResetGame(oldStore), |newQuestions|);
  }

  class ListeningSentenceGame {
    const vocabWords: seq<VocabItem>
    const numQuestions: nat
    var play: Play
    var isGameStarted: bool
    var isGameOver: bool
    var timer: nat
    var timerRunning: bool
    var store: GameStore.GameState

    ghost predicate Valid()
      reads this
    {
      PlayOk(play)
    }

    /** Mounting sets the question total to the item count and then resets
        the store, so the total reads 0 until a game starts. */
    constructor(vocabData: seq<VocabItem>, num: Option<nat>, initialStore: GameStore.GameState)
      ensures Valid() && vocabWords == vocabData && play == NoPlay
      ensures numQuestions == (if num.Some? then num.value else |vocabData|)
      ensures !isGameStarted && !isGameOver && timer == 0 && !timerRunning
      ensures store == GameStore.ResetGame(GameStore.SetTotalQuestions(initialStore, |vocabData|))
    {
      vocabWords := vocabData;
      numQuestions := if num.Some? then num.value else |vocabData|;
      play := NoPlay;
      isGameStarted := false;
      isGameOver := false;
      timer := 0;
      timerRunning := false;
      store := GameStore.ResetGame(GameStore.SetTotalQuestions(initialStore, |vocabData|));
    }

    method Tick()
      requires timerRunning
      modifies this
      ensures timer == old(timer) + 1 && timerRunning && play == old(play) && store == old(store)
      ensures isGameStarted == old(isGameStarted) && isGameOver == old(isGameOver)
    {
      timer := timer + 1;
    }

    /** `startGame` and `restartGame`, which do the same: new questions,
        the clock from 0, the store reset with the question count as total. */
    method StartGame()
      modifies this
      ensures Valid() && isGameStarted && !isGameOver && timer == 0 && timerRunning
      ensures NewGameFacts(vocabWords, numQuestions, old(store), play, store)
    {
      play, store := NewGame(vocabWords, numQuestions, store);
      isGameStarted := true;
      isGameOver := false;
      timer := 0;
      timerRunning := true;
    }

    method TypeAnswer(text: string)
      requires Valid()
      modifies this
      ensures Valid() && play == Typed(old(play), text) && store == old(store)
      ensures timer == old(timer) && timerRunning == old(timerRunning)
      ensures isGameStarted == old(isGameStarted) && isGameOver == old(isGameOver)
    {
      play := Typed(play, text);
    }

    /** `playCurrentSentence`: returns what is spoken and marks the audio as
        playing; `AudioFinished` is the 3 s timeout that clears the mark. */
    method PlaySentence() returns (spoken: Option<string>)
      requires Valid()
      modifies this
      ensures Valid() && spoken == Spoken(old(play))
      ensures spoken.Some? ==> play == old(play).(isPlayingAudio := true)
      ensures spoken.None? ==> play == old(play)
      ensures store == old(store) && timer == old(timer) && timerRunning == old(timerRunning)
      ensures isGameStarted == old(isGameStarted) && isGameOver == old(isGameOver)
    {
      spoken := Spoken(play);
      if spoken.Some? {
        play := play.(isPlayingAudio := true);
      }
    }

    method AudioFinished()
      requires Valid()
      modifies this
      ensures Valid() && play == old(play).(isPlayingAudio := false) && store == old(store)
      ensures timer == old(timer) && timerRunning == old(timerRunning)
      ensures isGameStarted == old(isGameStarted) && isGameOver == old(isGameOver)
    {
      play := play.(isPlayingAudio := false);
    }

    method SubmitAnswer()
      requires Valid()
      modifies this
      ensures Valid() && play == Submitted(old(play)) && store == SubmittedStore(old(play), old(store))
      ensures timer == old(timer) && timerRunning == old(timerRunning)
      ensures isGameStarted == old(isGameStarted) && isGameOver == old(isGameOver)
    {
      store := SubmittedStore(play, store);
      play := Submitted(play);
    }

    /** `nextQuestion`: nothing unless answering; then the next question, or
        game over with the clock stopped after the last. */
    method NextQuestion()
      requires Valid()
      modifies this
      ensures Valid() && store == old(store) && timer == old(timer) && isGameStarted == old(isGameStarted)
      ensures !old(play).isAnswering ==>
        play == old(play) && isGameOver == old(isGameOver) && timerRunning == old(timerRunning)
      ensures old(play).isAnswering && old(play).currentQuestionIndex + 1 < |old(play).questions| ==>
        play == Advanced(old(play)) && isGameOver == old(isGameOver) && timerRunning == old(timerRunning)
      ensures old(play).isAnswering && old(play).currentQuestionIndex + 1 >= |old(play).questions| ==>
        play == old(play) && isGameOver && !timerRunning
    {
      if !play.isAnswering {
        return;
      }
      if play.currentQuestionIndex + 1 < |play.questions| {
        play := Advanced(play);
      } else {
        isGameOver := true;
        timerRunning := false;
      }
    }

    /** `handleKeyPress`: Enter submits while the input is open and moves on
        otherwise; every other key does nothing. */
    method KeyDown(key: string)
      requires Valid()
      modifies this
      ensures Valid() && timer == old(timer) && isGameStarted == old(isGameStarted)
      ensures key != "Enter" ==>
        play == old(play) && store == old(store) && isGameOver == old(isGameOver) && timerRunning == old(timerRunning)
      ensures key == "Enter" && !old(play).isAnswering ==>
        play == Submitted(old(play)) && store == SubmittedStore(old(play), old(store))
        && isGameOver == old(isGameOver) && timerRunning == old(timerRunning)
      ensures key == "Enter" && old(play).isAnswering && old(play).currentQuestionIndex + 1 < |old(play).questions| ==>
        play == Advanced(old(play)) && store == old(store)
        && isGameOver == old(isGameOver) && timerRunning == old(timerRunning)
      ensures key == "Enter" && old(play).isAnswering && old(play).currentQuestionIndex + 1 >= |old(play).questions| ==>
        play == old(play) && store == old(store) && isGameOver && !timerRunning
    {
      if key == "Enter" {
        if !play.isAnswering {
          SubmitAnswer();
        } else {
          NextQuestion();
        }
      }
    }

    method CloseResults()
      modifies this
      ensures !isGameOver && isGameStarted == old(isGameStarted) && play == old(play)
      ensures store == old(store) && timer == old(timer) && timerRunning == old(timerRunning)
    {
      isGameOver := false;
    }
  }
}
