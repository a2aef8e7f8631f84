/**
 * The picture game that shows an image and offers the right English word
 * among up to three other words of the lesson (`PictureChoiceEnGame`).
 * Only the first click on a question counts; the move to the next question
 * follows 1.5 s later.
 */
module PictureChoiceEn {
  import opened Wrappers
  import opened Text
  import Shuffle
  import GameStore

  datatype VocabItem = VocabItem(word: string, vietnameseMeaning: string, image: Option<string>)

  datatype Question = Question(image: string, correct: string, options: seq<string>)

  function WordOf(v: VocabItem): string { v.word }

  function Words(words: seq<VocabItem>): seq<string> { Shuffle.MapSeq(WordOf, words) }

  function CorrectOf(q: Question): string { q.correct }

  function Min(a: nat, b: nat): nat { if a < b then a else b }

  /** `getRandomWrongAnswers`: `count` of the other words, or all of them
      when there are fewer, never the right word, each at most as often as
      it occurs in the lesson. */
  method WrongAnswers(correctWord: string, allWords: seq<VocabItem>, count: nat) returns (r: seq<string>)
    ensures |r| == Min(count, |Without(Words(allWords), correctWord)|)
    ensures correctWord !in r
    ensures multiset(r) <= multiset(Words(allWords))[correctWord := 0]
  {
    var others := Without(Words(allWords), correctWord);
    r := Shuffle.ShuffleTake(others, count);
    assert multiset(r)[correctWord] == 0;
  }

  /** The options of a question: the right word exactly once, and as many
      other lesson words as there are, up to three. */
  ghost predicate OptionsFor(options: seq<string>, correct: string, words: seq<string>) {
    multiset(options)[correct] == 1
    && |options| == 1 + Min(3, |Without(words, correct)|)
    && multiset(options)[correct := 0] <= multiset(words)[correct := 0]
  }

  /** `[word.word, ...wrongAnswers]`, shuffled. */
  method MakeOptions(correct: string, allWords: seq<VocabItem>) returns (options: seq<string>)
    ensures OptionsFor(options, correct, Words(allWords))
    ensures correct in options && |options| <= 4
  {
    var wrong := WrongAnswers(correct, allWords, 3);
    options := Shuffle.Shuffle([correct] + wrong);
    assert multiset(options) == multiset{correct} + multiset(wrong);
    assert multiset(wrong)[correct] == 0;
    assert multiset(options)[correct := 0] == multiset(wrong);
    assert correct in multiset(options);
  }

  function ImageOf(v: VocabItem): string {
    if v.image.Some? then v.image.value else ""
  }

  /** `createQuestions`: `min(num, |words|)` different items of a shuffle,
      each with its own options, in a new random order. */
  method CreateQuestions(words: seq<VocabItem>, num: nat) returns (qs: seq<Question>)
    ensures |qs| == Min(num, |words|)
    ensures forall q :: q in qs ==> OptionsFor(q.options, q.correct, Words(words))
    ensures multiset(Shuffle.MapSeq(CorrectOf, qs)) <= multiset(Words(words))
  {
    var all := Shuffle.Shuffle(words);
    var taken := if num < |all| then all[..num] else all;
    var list: seq<Question> := [];
    var i := 0;
    while i < |taken|
      invariant 0 <= i <= |taken| && |list| == i && Made(list, taken, words)
    {
      var q := MakeQuestion(taken[i], words);
      MadeSnoc(list, taken, words, q);
      list := list + [q];
      i := i + 1;
    }
    qs := Shuffle.Shuffle(list);
    MadeShuffled(list, qs, taken, words);
    MadeCorrects(list, taken, words);
    CorrectsDrawn(list, taken, all, words);
    Shuffle.MapPermute(CorrectOf, qs, list);
  }

  /** The question for one drawn item: its image, its word and options. */
  method MakeQuestion(v: VocabItem, words: seq<VocabItem>) returns (q: Question)
    ensures q.correct == v.word && OptionsFor(q.options, q.correct, Words(words))
  {
    var options := MakeOptions(v.word, words);
    q := Question(ImageOf(v), v.word, options);
  }

  /** The questions made so far: one per drawn item, in order, each with
      its options. */
  ghost predicate Made(list: seq<Question>, taken: seq<VocabItem>, words: seq<VocabItem>) {
    |list| <= |taken|
    && forall k :: 0 <= k < |list| ==>
         list[k].correct == taken[k].word && OptionsFor(list[k].options, list[k].correct, Words(words))
  }

  lemma MadeSnoc(list: seq<Question>, taken: seq<VocabItem>, words: seq<VocabItem>, q: Question)
    requires Made(list, taken, words) && |list| < |taken|
    requires q.correct == taken[|list|].word && OptionsFor(q.options, q.correct, Words(words))
    ensures Made(list + [q], taken, words)
  {
  }

  /** The made questions' right words are the drawn items' words. */
  lemma MadeCorrects(list: seq<Question>, taken: seq<VocabItem>, words: seq<VocabItem>)
    requires Made(list, taken, words)
    ensures forall k :: 0 <= k < |list| ==> list[k].correct == taken[k].word
  {
  }

  /** A shuffle of the made questions holds made questions only. */
  lemma MadeShuffled(list: seq<Question>, qs: seq<Question>, taken: seq<VocabItem>, words: seq<VocabItem>)
    requires Made(list, taken, words) && multiset(qs) == multiset(list)
    ensures forall q :: q in qs ==> OptionsFor(q.options, q.correct, Words(words))
  {
    forall q | q in qs
      ensures OptionsFor(q.options, q.correct, Words(words))
    {
      assert q in multiset(list);
      var k :| 0 <= k < |list| && list[k] == q;
    }
  }

  /** The right words of questions made one per drawn item are drawn from
      the lesson's words. */
  lemma CorrectsDrawn(list: seq<Question>, taken: seq<VocabItem>, all: seq<VocabItem>, words: seq<VocabItem>)
    requires |list| == |taken| && forall k :: 0 <= k < |list| ==> list[k].correct == taken[k].word
    requires multiset(all) == multiset(words) && |taken| <= |all| && taken == all[..|taken|]
    ensures multiset(Shuffle.MapSeq(CorrectOf, list)) <= multiset(Words(words))
  {
    CorrectsAreWords(list, taken);
    var rest := all[|taken|..];
    assert all == taken + rest;
    Shuffle.MapAppend(WordOf, taken, rest);
    Shuffle.MapPermute(WordOf, all, words);
  }

  lemma {:induction false} CorrectsAreWords(list: seq<Question>, taken: seq<VocabItem>)
    requires |list| == |taken| && forall k :: 0 <= k < |list| ==> list[k].correct == taken[k].word
    ensures Shuffle.MapSeq(CorrectOf, list) == Words(taken)
  {
    if list != [] {
      CorrectsAreWords(list[1..], taken[1..]);
    }
  }

  /** A value that occurs once in a sequence sits at exactly one index. */
  lemma {:induction false} OccursOnce(s: seq<string>, x: string)
    requires multiset(s)[x] == 1
    ensures exists i :: 0 <= i < |s| && s[i] == x
    ensures forall i, j :: 0 <= i < |s| && 0 <= j < |s| && s[i] == x && s[j] == x ==> i == j
  {
    assert s == [s[0]] + s[1..];
    if s[0] == x {
      assert multiset(s[1..])[x] == 0;
      forall j | 1 <= j < |s|
        ensures s[j] != x
      {
        assert s[j] == s[1..][j - 1];
      }
    } else {
      OccursOnce(s[1..], x);
      var i :| 0 <= i < |s[1..]| && s[1..][i] == x;
      assert s[i + 1] == x;
      forall i, j | 0 <= i < |s| && 0 <= j < |s| && s[i] == x && s[j] == x
        ensures i == j
      {
        assert i > 0 && j > 0;
        assert s[1..][i - 1] == x && s[1..][j - 1] == x;
      }
    }
  }

  datatype Play = Play(questions: seq<Question>, currentQuestionIndex: int, score: int,
                       isAnswering: bool, selectedOption: Option<string>, showFeedback: bool)

  ghost predicate PlayOk(p: Play) {
    p.score >= 0 && p.currentQuestionIndex >= 0
  }

  const NoPlay := Play([], 0, 0, false, None, false)

  predicate HasCurrent(p: Play) {
    0 <= p.currentQuestionIndex < |p.questions|
  }

  function StartPlay(qs: seq<Question>): (p: Play)
    ensures PlayOk(p) && p.questions == qs && p.currentQuestionIndex == 0 && p.score == 0
    ensures !p.isAnswering && p.selectedOption == None && !p.showFeedback
    ensures HasCurrent(p) <==> |qs| > 0
  {
    Play(qs, 0, 0, false, None, false)
  }

  /** `handleOptionClick`: ignored once the question is answered; otherwise
      the option is marked, the question locks, and the right option scores
      one point. The current question must exist (the options are only
      shown for one). */
  function Clicked(p: Play, option: string): (r: Play)
    requires PlayOk(p) && (!p.isAnswering ==> HasCurrent(p))
    ensures PlayOk(r) && r.questions == p.questions && r.currentQuestionIndex == p.currentQuestionIndex
    ensures p.isAnswering ==> r == p
    ensures !p.isAnswering ==>
      r.isAnswering && r.showFeedback && r.selectedOption == Some(option)
      && (r.score == p.score + 1 <==> option == p.questions[p.currentQuestionIndex].correct)
      && (r.score == p.score <==> option != p.questions[p.currentQuestionIndex].correct)
  {
    if p.isAnswering then p
    else
      var right := option == p.questions[p.currentQuestionIndex].correct;
      p.(selectedOption := Some(option), isAnswering := true, showFeedback := true,
         score := if right then p.score + 1 else p.score)
  }

  function ClickedStore(p: Play, option: string, store: GameStore.GameState): (s: GameStore.GameState)
    requires !p.isAnswering ==> HasCurrent(p)
    ensures p.isAnswering ==> s == store
    ensures !p.isAnswering && option == p.questions[p.currentQuestionIndex].correct ==> s == GameStore.AnswerCorrect(store)
    ensures !p.isAnswering && option != p.questions[p.currentQuestionIndex].correct ==> s == GameStore.AnswerIncorrect(store)
  {
    if p.isAnswering then store
    else if option == p.questions[p.currentQuestionIndex].correct then GameStore.AnswerCorrect(store)
    else GameStore.AnswerIncorrect(store)
  }

  /** Of the offered options exactly one scores, and after the first click
      no later click changes anything. */
  lemma OneOptionScores(p: Play, words: seq<string>, option: string, later: string)
    requires PlayOk(p) && HasCurrent(p) && !p.isAnswering
    requires var q := p.questions[p.currentQuestionIndex]; OptionsFor(q.options, q.correct, words)
    ensures var os := p.questions[p.currentQuestionIndex].options;
      (exists i :: 0 <= i < |os| && Clicked(p, os[i]).score == p.score + 1)
      && (forall i, j :: (0 <= i < |os| && 0 <= j < |os| && Clicked(p, os[i]).score == p.score + 1
                           && Clicked(p, os[j]).score == p.score + 1) ==> i == j)
    ensures Clicked(Clicked(p, option), later) == Clicked(p, option)
  {
    var q := p.questions[p.currentQuestionIndex];
    OccursOnce(q.options, q.correct);
  }

  /** The 1.5 s timeout when a next question exists. */
  function Advanced(p: Play): (r: Play)
    requires PlayOk(p) && p.currentQuestionIndex + 1 < |p.questions|
    ensures PlayOk(r) && r.questions == p.questions && r.score == p.score && HasCurrent(r)
    ensures r.currentQuestionIndex == p.currentQuestionIndex + 1
    ensures !r.isAnswering && r.selectedOption == None && !r.showFeedback
  {
    p.(currentQuestionIndex := p.currentQuestionIndex + 1, selectedOption := None,
       isAnswering := false, showFeedback := false)
  }

  ghost predicate QuestionsFor(qs: seq<Question>, vocab: seq<VocabItem>) {
    forall q :: q in qs ==> OptionsFor(q.options, q.correct, Words(vocab))
  }

  /** What `startGame` sets up. */
  ghost predicate NewGameFacts(vocab: seq<VocabItem>, num: nat, oldStore: GameStore.GameState,
                               p: Play, store: GameStore.GameState) {
    p == StartPlay(p.questions) && |p.questions| == Min(num, |vocab|)
    && QuestionsFor(p.questions, vocab)
    && multiset(Shuffle.MapSeq(CorrectOf, p.questions)) <= multiset(Words(vocab))
    && store == GameStore.SetTotalQuestions(GameStore.ResetGame(oldStore), |p.questions|)
  }

  method NewGame(vocab: seq<VocabItem>, num: nat, oldStore: GameStore.GameState)
    returns (p: Play, store: GameStore.GameState)
    ensures PlayOk(p) && NewGameFacts(vocab, num, oldStore, p, store)
  {
    var newQuestions := CreateQuestions(vocab, num);
    p := StartPlay(newQuestions);
    store := GameStore.SetTotalQuestions(GameStore.ResetGame(oldStore), |newQuestions|);
  }

  class PictureChoiceGame {
    const vocabWords: seq<VocabItem>
    const numQuestions: nat
    var play: Play
    var isGameStarted: bool
    var isGameOver: bool
    var timer: nat
    var timerRunning: bool
    var store: GameStore.GameState

    ghost predicate Valid()
      reads this
    {
      PlayOk(play) && QuestionsFor(play.questions, vocabWords)
    }

    constructor(vocabData: seq<VocabItem>, num: Option<nat>, initialStore: GameStore.GameState)
      ensures Valid() && vocabWords == vocabData && play == NoPlay
      ensures numQuestions == (if num.Some? then num.value else |vocabData|)
      ensures !isGameStarted && !isGameOver && timer == 0 && !timerRunning
      ensures store == GameStore.ResetGame(GameStore.SetTotalQuestions(initialStore, |vocabData|))
    {
      vocabWords := vocabData;
      numQuestions := if num.Some? then num.value else |vocabData|;
      play := NoPlay;
      isGameStarted := false;
      isGameOver := false;
      timer := 0;
      timerRunning := false;
      store := GameStore.ResetGame(GameStore.SetTotalQuestions(initialStore, |vocabData|));
    }

    method Tick()
      requires timerRunning
      modifies this
      ensures timer == old(timer) + 1 && timerRunning && play == old(play) && store == old(store)
      ensures isGameStarted == old(isGameStarted) && isGameOver == old(isGameOver)
    {
      timer := timer + 1;
    }

    method StartGame()
      modifies this
      ensures Valid() && isGameStarted && !isGameOver && timer == 0 && timerRunning
      ensures NewGameFacts(vocabWords, numQuestions, old(store), play, store)
    {
      play, store := NewGame(vocabWords, numQuestions, store);
      isGameStarted := true;
      isGameOver := false;
      timer := 0;
      timerRunning := true;
    }

    /** `restartGame`: back to the start screen; the clock stops but keeps
        its reading. */
    method RestartGame()
      modifies this
      ensures Valid() && play == NoPlay && !isGameStarted && !isGameOver
      ensures !timerRunning && timer == old(timer) && store == GameStore.ResetGame(old(store))
    {
      timerRunning := false;
      isGameStarted := false;
      isGameOver := false;
      play := NoPlay;
      store := GameStore.ResetGame(store);
    }

    /** `handleOptionClick`; the move on follows as `NextQuestion`. */
    method OptionClick(option: string)
      requires Valid() && (!play.isAnswering ==> HasCurrent(play))
      modifies this
      ensures Valid() && play == Clicked(old(play), option) && store == ClickedStore(old(play), option, old(store))
      ensures timer == old(timer) && timerRunning == old(timerRunning)
      ensures isGameStarted == old(isGameStarted) && isGameOver == old(isGameOver)
    {
      store := ClickedStore(play, option, store);
      play := Clicked(play, option);
    }

    /** `nextQuestion`: the next question, or game over with the clock
        stopped after the last. */
    method NextQuestion()
      requires Valid()
      modifies this
      ensures Valid() && store == old(store) && timer == old(timer) && isGameStarted == old(isGameStarted)
      ensures old(play).currentQuestionIndex + 1 < |old(play).questions| ==>
        play == Advanced(old(play)) && isGameOver == old(isGameOver) && timerRunning == old(timerRunning)
      ensures old(play).currentQuestionIndex + 1 >= |old(play).questions| ==>
        play == old(play) && isGameOver && !timerRunning
    {
      if play.currentQuestionIndex + 1 < |play.questions| {
        play := Advanced(play);
      } else {
        isGameOver := true;
        timerRunning := false;
      }
    }

    method CloseResults()
      modifies this
      ensures !isGameOver && isGameStarted == old(isGameStarted) && play == old(play)
      ensures store == old(store) && timer == old(timer) && timerRunning == old(timerRunning)
    {
      isGameOver := false;
    }
  }
}
