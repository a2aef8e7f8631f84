/**
 * The school-supplies anagram game: one question per vocabulary item, slots
 * that hold bare letters, and a slot click that frees the index of the first
 * occurrence, in the scrambled word, of the letter at the slot's own
 * position.
 */
module AnagramGame {
  import opened Text
  import Shuffle
  import GameStore
  import AnagramActivity

  /** The vocabulary item behind a question. */
  function ItemOf(q: AnagramActivity.Question): AnagramActivity.VocabItem {
    AnagramActivity.VocabItem(q.correct, q.vietnamese)
  }

  function Items(qs: seq<AnagramActivity.Question>): seq<AnagramActivity.VocabItem> {
    Shuffle.MapSeq(ItemOf, qs)
  }

  /** `createQuestions`: one question per vocabulary item, in random order,
      each with its word scrambled. */
  method CreateAllQuestions(words: seq<AnagramActivity.VocabItem>) returns (qs: seq<AnagramActivity.Question>)
    ensures multiset(Items(qs)) == multiset(words)
    ensures forall q :: q in qs ==> multiset(q.scrambled) == multiset(q.correct) && |q.scrambled| == |q.correct|
  {
    var list: seq<AnagramActivity.Question> := [];
    var i := 0;
    while i < |words|
      invariant 0 <= i <= |words| && Items(list) == words[..i]
      invariant forall q :: q in list ==> multiset(q.scrambled) == multiset(q.correct) && |q.scrambled| == |q.correct|
    {
      var scrambled := AnagramActivity.ScrambleWord(words[i].word);
      Shuffle.MapAppend(ItemOf, list, [AnagramActivity.Question(words[i].vietnameseMeaning, words[i].word, scrambled)]);
      list := list + [AnagramActivity.Question(words[i].vietnameseMeaning, words[i].word, scrambled)];
      i := i + 1;
    }
    assert words[..i] == words;
    qs := Shuffle.Shuffle(list);
    Shuffle.MapPermute(ItemOf, qs, list);
    forall q | q in qs
      ensures q in list
    {
      assert q in multiset(qs);
    }
  }

  // ---------------------------------------------------------------------
  // Slots of bare letters
  // ---------------------------------------------------------------------

  /** The slots (each '' or one upper-cased letter), the used letter
      indices and the submitted flag. */
  datatype Round = Round(answerSlots: seq<string>, usedLetters: set<int>, isAnswering: bool)

  /** `findIndex(slot => slot === '')` */
  function FirstEmpty(slots: seq<string>): (i: int)
    ensures -1 <= i < |slots|
    ensures i >= 0 ==> slots[i] == "" && forall k :: 0 <= k < i ==> slots[k] != ""
    ensures i == -1 <==> forall k :: 0 <= k < |slots| ==> slots[k] != ""
  {
    if slots == [] then -1
    else if slots[0] == "" then 0
    else var j := FirstEmpty(slots[1..]); if j == -1 then -1 else j + 1
  }

  /** `new Array(n).fill('')` with no used letter. */
  function Fresh(n: nat, answering: bool): (r: Round)
    ensures |r.answerSlots| == n && r.usedLetters == {} && r.isAnswering == answering
    ensures forall k :: 0 <= k < n ==> r.answerSlots[k] == ""
  {
    Round(seq(n, _ => ""), {}, answering)
  }

  /** `handleLetterClick`: as in the activity version, but the slot keeps
      only the upper-cased letter. */
  function LetterClicked(r: Round, letterIndex: int, letter: char): (s: Round)
    ensures r.isAnswering || letterIndex in r.usedLetters || FirstEmpty(r.answerSlots) == -1 ==> s == r
    ensures !r.isAnswering && letterIndex !in r.usedLetters && FirstEmpty(r.answerSlots) != -1 ==>
      s.answerSlots == r.answerSlots[FirstEmpty(r.answerSlots) := [UpperChar(letter)]]
      && s.usedLetters == r.usedLetters + {letterIndex} && s.isAnswering == r.isAnswering
  {
    if r.isAnswering || letterIndex in r.usedLetters then r
    else
      var k := FirstEmpty(r.answerSlots);
      if k == -1 then r
      else r.(answerSlots := r.answerSlots[k := [UpperChar(letter)]], usedLetters := r.usedLetters + {letterIndex})
  }

  /** With no slots, as right after `startGame`, a letter click changes nothing. */
  lemma NoSlotsNoLetters(used: set<int>, answering: bool, letterIndex: int, letter: char)
    ensures LetterClicked(Round([], used, answering), letterIndex, letter) == Round([], used, answering)
  {
  }

  /** `handleSlotClick` as written: the slot empties, and the index freed is
      the first position, in the scrambled word, of the letter found at the
      slot's own position in it, whichever letter the slot held. */
  function SlotClickedAsWritten(r: Round, scrambled: string, slotIndex: int): (s: Round)
    requires 0 <= slotIndex < |r.answerSlots| && slotIndex < |scrambled|
    ensures r.isAnswering || r.answerSlots[slotIndex] == "" ==> s == r
    ensures !r.isAnswering && r.answerSlots[slotIndex] != "" ==>
      s.answerSlots == r.answerSlots[slotIndex := ""]
      && s.usedLetters == r.usedLetters - {IndexOf(scrambled, scrambled[slotIndex])}
      && IndexOf(scrambled, scrambled[slotIndex]) <= slotIndex
  {
    if r.isAnswering || r.answerSlots[slotIndex] == "" then r
    else
      r.(answerSlots := r.answerSlots[slotIndex := ""],
         usedLetters := r.usedLetters - {IndexOf(scrambled, scrambled[slotIndex])})
  }

  /** Scrambled "AB": clicking the letter at index 1 fills slot 0 with 'B';
      clicking that slot frees index 0, the position of the 'A' found at
      slot 0 in the scrambled word.  Every slot is empty again, yet index 1
      stays used, so 'B' can no longer be picked and the word cannot be
      completed without Clear. */
  lemma SlotClickLeavesLetterUsed()
    ensures var filled := LetterClicked(Fresh(2, false), 1, 'B');
      var freed := SlotClickedAsWritten(filled, "AB", 0);
      freed.answerSlots == ["", ""] && freed.usedLetters == {1}
      && LetterClicked(freed, 1, 'B') == freed
  {
    var filled := LetterClicked(Fresh(2, false), 1, 'B');
    assert filled.answerSlots == ["B", ""] && filled.usedLetters == {1};
    assert IndexOf("AB", 'A') == 0;
  }

  /** The Submit button is enabled when not answering and no slot is empty,
      which holds vacuously for no slots at all. */
  predicate SubmitEnabled(r: Round) {
    !r.isAnswering && forall k :: 0 <= k < |r.answerSlots| ==> r.answerSlots[k] != ""
  }

  /** The slot letters joined. */
  function Joined(slots: seq<string>): string {
    if slots == [] then "" else slots[0] + Joined(slots[1..])
  }

  /** The verdict: the joined slots, lowered, equal the lowered word. */
  predicate AnswerRight(slots: seq<string>, correct: string) {
    ToLower(Joined(slots)) == ToLower(correct)
  }

  /** Right after `startGame` Submit is enabled, submits '' and, for any
      non-empty word, is judged wrong. */
  lemma EmptySubmitWrong(used: set<int>, correct: string)
    requires correct != ""
    ensures SubmitEnabled(Round([], used, false))
    ensures Joined([]) == "" && !AnswerRight([], correct)
  {
    assert |ToLower(correct)| > 0;
  }

  /** Slots holding the word's letters, upper-cased and in order, are right. */
  lemma {:induction false} OwnLettersRight(slots: seq<string>, word: string)
    requires |slots| == |word|
    requires forall k :: 0 <= k < |slots| ==> slots[k] == [UpperChar(word[k])]
    ensures Joined(slots) == ToUpper(word)
    ensures AnswerRight(slots, word)
  {
    if slots != [] {
      OwnLettersRight(slots[1..], word[1..]);
      assert ToUpper(word) == [UpperChar(word[0])] + ToUpper(word[1..]);
    }
    UpperThenLowerWord(word);
  }

  /** Lowering an upper-cased word gives the lowered word. */
  lemma UpperThenLowerWord(word: string)
    ensures ToLower(ToUpper(word)) == ToLower(word)
  {
    assert forall k :: 0 <= k < |word| ==> LowerChar(UpperChar(word[k])) == LowerChar(word[k]);
  }

  // ---------------------------------------------------------------------
  // The game
  // ---------------------------------------------------------------------

  /** What one game holds besides its flags, clock and store. */
  datatype Play = Play(questions: seq<AnagramActivity.Question>, currentQuestionIndex: int, score: int,
                       round: Round, feedback: AnagramActivity.Feedback)

  /** The index is never negative and, once questions exist, names one of
      them; the slots are either none or one per letter of its word; every
      scrambled word is as long as its answer. */
  ghost predicate PlayOk(p: Play) {
    p.score >= 0 && p.currentQuestionIndex >= 0
    && (forall q :: q in p.questions ==> |q.scrambled| == |q.correct|)
    && (|p.questions| > 0 ==>
          p.currentQuestionIndex < |p.questions|
          && (|p.round.answerSlots| == 0 || |p.round.answerSlots| == |p.questions[p.currentQuestionIndex].correct|))
  }

  /** The play before any game and after `restartGame`. */
  const NoPlay := Play([], 0, 0, Fresh(0, false), AnagramActivity.NoFeedback)

  /** `startGame`'s play: the new questions from the first, no slot at all. */
  function StartPlay(qs: seq<AnagramActivity.Question>): (p: Play)
    requires forall q :: q in qs ==> |q.scrambled| == |q.correct|
    ensures PlayOk(p) && p.questions == qs && p.currentQuestionIndex == 0 && p.score == 0
    ensures p.round.answerSlots == [] && p.round.usedLetters == {} && !p.round.isAnswering
  {
    Play(qs, 0, 0, Fresh(0, false), AnagramActivity.NoFeedback)
  }

  /** A letter click touches the round only, and keeps the play well formed. */
  function LetterStep(p: Play, letterIndex: int, letter: char): (r: Play)
    requires PlayOk(p)
    ensures PlayOk(r) && r == p.(round := LetterClicked(p.round, letterIndex, letter))
    ensures |r.round.answerSlots| == |p.round.answerSlots|
  {
    p.(round := LetterClicked(p.round, letterIndex, letter))
  }

  /** A slot click, as written, touches the round only. */
  function SlotStep(p: Play, slotIndex: int): (r: Play)
    requires PlayOk(p) && 0 <= p.currentQuestionIndex < |p.questions| && 0 <= slotIndex < |p.round.answerSlots|
    ensures PlayOk(r) && |r.round.answerSlots| == |p.round.answerSlots|
    ensures r == p.(round := SlotClickedAsWritten(p.round, p.questions[p.currentQuestionIndex].scrambled, slotIndex))
  {
    assert p.questions[p.currentQuestionIndex] in p.questions;
    p.(round := SlotClickedAsWritten(p.round, p.questions[p.currentQuestionIndex].scrambled, slotIndex))
  }

  /** `clearAnswer`: ignored while answering; otherwise one empty slot per
      letter of the word, nothing used and no feedback. */
  function Cleared(p: Play): (r: Play)
    requires PlayOk(p) && 0 <= p.currentQuestionIndex < |p.questions|
    ensures PlayOk(r)
    ensures p.round.isAnswering ==> r == p
    ensures !p.round.isAnswering ==>
      r == p.(round := Fresh(|p.questions[p.currentQuestionIndex].correct|, false), feedback := AnagramActivity.NoFeedback)
  {
    if p.round.isAnswering then p
    else p.(round := Fresh(|p.questions[p.currentQuestionIndex].correct|, false), feedback := AnagramActivity.NoFeedback)
  }

  /** The verdict on the current question. */
  predicate RightNow(p: Play)
    requires 0 <= p.currentQuestionIndex < |p.questions|
  {
    AnswerRight(p.round.answerSlots, p.questions[p.currentQuestionIndex].correct)
  }

  /** `submitAnswer`: ignored while answering; otherwise the round locks and
      a right answer scores one point. */
  function Submitted(p: Play): (r: Play)
    requires PlayOk(p) && 0 <= p.currentQuestionIndex < |p.questions|
    ensures PlayOk(r) && r.questions == p.questions && r.currentQuestionIndex == p.currentQuestionIndex
    ensures p.round.isAnswering ==> r == p
    ensures !p.round.isAnswering ==>
      r.round == p.round.(isAnswering := true)
      && r.score == (if RightNow(p) then p.score + 1 else p.score)
      && r.feedback == (if RightNow(p) then AnagramActivity.Right
                        else AnagramActivity.Wrong(p.questions[p.currentQuestionIndex].correct))
  {
    if p.round.isAnswering then p
    else if RightNow(p) then p.(round := p.round.(isAnswering := true), score := p.score + 1, feedback := AnagramActivity.Right)
    else p.(round := p.round.(isAnswering := true), feedback := AnagramActivity.Wrong(p.questions[p.currentQuestionIndex].correct))
  }

  /** The store after a submission. */
  function SubmittedStore(p: Play, store: GameStore.GameState): (s: GameStore.GameState)
    requires 0 <= p.currentQuestionIndex < |p.questions|
    ensures p.round.isAnswering ==> s == store
    ensures !p.round.isAnswering && RightNow(p) ==> s == GameStore.AnswerCorrect(store)
    ensures !p.round.isAnswering && !RightNow(p) ==> s == GameStore.AnswerIncorrect(store)
  {
    if p.round.isAnswering then store
    else if RightNow(p) then GameStore.AnswerCorrect(store)
    else GameStore.AnswerIncorrect(store)
  }

  /** A second submission of the same round changes nothing. */
  lemma SubmitOnce(p: Play, store: GameStore.GameState)
    requires PlayOk(p) && 0 <= p.currentQuestionIndex < |p.questions|
    ensures Submitted(Submitted(p)) == Submitted(p)
    ensures SubmittedStore(Submitted(p), SubmittedStore(p, store)) == SubmittedStore(p, store)
  {
  }

  /** `nextQuestion`'s play when a next question exists: its index, one
      empty slot per letter, nothing used, unlocked, no feedback. */
  function Advanced(p: Play): (r: Play)
    requires PlayOk(p) && p.currentQuestionIndex + 1 < |p.questions|
    ensures PlayOk(r) && r.questions == p.questions && r.score == p.score
    ensures r.currentQuestionIndex == p.currentQuestionIndex + 1
    ensures r.round == Fresh(|p.questions[r.currentQuestionIndex].correct|, false)
    ensures r.feedback == AnagramActivity.NoFeedback
  {
    var next := p.currentQuestionIndex + 1;
    assert p.questions[next] in p.questions;
    p.(currentQuestionIndex := next, round := Fresh(|p.questions[next].correct|, false),
       feedback := AnagramActivity.NoFeedback)
  }

  /** What `startGame` sets up: one question per vocabulary item, each a
      scramble of its word, the first of them with no slot yet, and the
      store reset with the vocabulary size as question total. */
  ghost predicate NewGameFacts(vocab: seq<AnagramActivity.VocabItem>, oldStore: GameStore.GameState,
                               p: Play, store: GameStore.GameState) {
    (forall q :: q in p.questions ==> multiset(q.scrambled) == multiset(q.correct) && |q.scrambled| == |q.correct|)
    && p == StartPlay(p.questions)
    && multiset(Items(p.questions)) == multiset(vocab)
    && store == GameStore.SetTotalQuestions(GameStore.ResetGame(oldStore), |vocab|)
  }

  method NewGame(vocab: seq<AnagramActivity.VocabItem>, oldStore: GameStore.GameState)
    returns (p: Play, store: GameStore.GameState)
    ensures PlayOk(p) && NewGameFacts(vocab, oldStore, p, store)
  {
    var newQuestions := CreateAllQuestions(vocab);
    p := StartPlay(newQuestions);
    store := GameStore.SetTotalQuestions(GameStore.ResetGame(oldStore), |vocab|);
  }

  class AnagramBoard {
    const vocabWords: seq<AnagramActivity.VocabItem>
    var play: Play
    var isGameStarted: bool
    var isGameOver: bool
    var timer: nat
    var timerRunning: bool
    var store: GameStore.GameState

    ghost predicate Valid()
      reads this
    {
      PlayOk(play)
    }

    /** Mounting sets the question total and then resets the store, so the
        total reads 0 until a game starts. */
    constructor(vocabData: seq<AnagramActivity.VocabItem>, initialStore: GameStore.GameState)
      ensures Valid() && vocabWords == vocabData && play == NoPlay
      ensures !isGameStarted && !isGameOver && timer == 0 && !timerRunning
      ensures store == GameStore.ResetGame(GameStore.SetTotalQuestions(initialStore, |vocabData|))
      ensures store.totalQuestions == 0
    {
      vocabWords := vocabData;
      play := NoPlay;
      isGameStarted := false;
      isGameOver := false;
      timer := 0;
      timerRunning := false;
      store := GameStore.ResetGame(GameStore.SetTotalQuestions(initialStore, |vocabData|));
    }

    method Tick()
      requires timerRunning
      modifies this
      ensures timer == old(timer) + 1 && timerRunning && play == old(play) && store == old(store)
      ensures isGameStarted == old(isGameStarted) && isGameOver == old(isGameOver)
    {
      timer := timer + 1;
    }

    /** `startGame`: every item becomes a question, there are no slots yet,
        the store is reset to the vocabulary size and the clock restarts. */
    method StartGame()
      modifies this
      ensures Valid() && isGameStarted && !isGameOver && timer == 0 && timerRunning
      ensures NewGameFacts(vocabWords, old(store), play, store)
    {
      play, store := NewGame(vocabWords, store);
      isGameStarted := true;
      isGameOver := false;
      timer := 0;
      timerRunning := true;
    }

    /** `restartGame`: back to the start screen with no questions; the
        clock stops but keeps its reading. */
    method RestartGame()
      modifies this
      ensures Valid() && play == NoPlay && !isGameStarted && !isGameOver
      ensures !timerRunning && timer == old(timer) && store == GameStore.ResetGame(old(store))
    {
      timerRunning := false;
      isGameStarted := false;
      isGameOver := false;
      play := NoPlay;
      store := GameStore.ResetGame(store);
    }

    method HandleLetterClick(letterIndex: int, letter: char)
      requires Valid()
      modifies this
      ensures Valid() && play == LetterStep(old(play), letterIndex, letter)
      ensures store == old(store) && timer == old(timer) && timerRunning == old(timerRunning)
      ensures isGameStarted == old(isGameStarted) && isGameOver == old(isGameOver)
    {
      play := LetterStep(play, letterIndex, letter);
    }

    method HandleSlotClick(slotIndex: int)
      requires Valid() && 0 <= play.currentQuestionIndex < |play.questions|
      requires 0 <= slotIndex < |play.round.answerSlots|
      modifies this
      ensures Valid() && play == SlotStep(old(play), slotIndex)
      ensures store == old(store) && timer == old(timer) && timerRunning == old(timerRunning)
      ensures isGameStarted == old(isGameStarted) && isGameOver == old(isGameOver)
    {
      play := SlotStep(play, slotIndex);
    }

    method ClearAnswer()
      requires Valid() && 0 <= play.currentQuestionIndex < |play.questions|
      modifies this
      ensures Valid() && play == Cleared(old(play))
      ensures store == old(store) && timer == old(timer) && timerRunning == old(timerRunning)
      ensures isGameStarted == old(isGameStarted) && isGameOver == old(isGameOver)
    {
      play := Cleared(play);
    }

    /** `submitAnswer`; the move to the next question follows 1.5 s later
        as a separate `NextQuestion` call. */
    method SubmitAnswer()
      requires Valid() && 0 <= play.currentQuestionIndex < |play.questions|
      modifies this
      ensures Valid() && play == Submitted(old(play)) && store == SubmittedStore(old(play), old(store))
      ensures timer == old(timer) && timerRunning == old(timerRunning)
      ensures isGameStarted == old(isGameStarted) && isGameOver == old(isGameOver)
    {
      store := SubmittedStore(play, store);
      play := Submitted(play);
    }

    /** `nextQuestion`: the next question, or, after the last, game over
        with the clock stopped. */
    method NextQuestion()
      requires Valid()
      modifies this
      ensures Valid() && store == old(store) && timer == old(timer) && isGameStarted == old(isGameStarted)
      ensures old(play).currentQuestionIndex + 1 < |old(play).questions| ==>
        play == Advanced(old(play)) && isGameOver == old(isGameOver) && timerRunning == old(timerRunning)
      ensures old(play).currentQuestionIndex + 1 >= |old(play).questions| ==>
        play == old(play) && isGameOver && !timerRunning
    {
      if play.currentQuestionIndex + 1 < |play.questions| {
        play := Advanced(play);
      } else {
        isGameOver := true;
        timerRunning := false;
      }
    }

    /** The results panel's Close button. */
    method CloseResults()
      modifies this
      ensures !isGameOver && isGameStarted == old(isGameStarted) && play == old(play)
      ensures store == old(store) && timer == old(timer) && timerRunning == old(timerRunning)
    {
      isGameOver := false;
    }
  }
}
