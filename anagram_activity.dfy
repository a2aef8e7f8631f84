/**
 * The anagram activity: each question shows a scrambled word; clicking its
 * letters fills the answer slots left to right, clicking a slot gives its
 * letter back, and the answer is checked ignoring letter case.
 */
module AnagramActivity {
  import opened Wrappers
  import opened Text
  import Shuffle
  import GameStore

  // ---------------------------------------------------------------------
  // The clock
  // ---------------------------------------------------------------------

  /** The number a decimal digit stands for. */
  function DigitValue(c: char): int {
    c as int - 48
  }

  /** A number padded to two digits has at least two of them; below 100,
      exactly two, which read the number. */
  lemma TwoDigits(n: nat)
    ensures |PadStartZero(NatToString(n), 2)| >= 2
    ensures n < 100 ==> var p := PadStartZero(NatToString(n), 2);
      |p| == 2 && 10 * DigitValue(p[0]) + DigitValue(p[1]) == n
  {
    if n < 10 {
      assert PadStartZero(NatToString(n), 2) == ['0', DigitChar(n)];
    } else if n < 100 {
      assert NatToString(n) == [DigitChar(n / 10), DigitChar(n % 10)];
    }
  }

  /** `formatTime`: minutes and seconds, each padded to two digits, around
      a colon. */
  function FormatTime(seconds: nat): (r: string)
    ensures |r| >= 5 && r[|r| - 3] == ':'
  {
    TwoDigits(seconds % 60);
    TwoDigits(seconds / 60);
    PadStartZero(NatToString(seconds / 60), 2) + ":" + PadStartZero(NatToString(seconds % 60), 2)
  }

  /** The last two digits of the clock read the seconds below 60. */
  lemma FormatTimeSeconds(seconds: nat)
    ensures var r := FormatTime(seconds);
      10 * DigitValue(r[|r| - 2]) + DigitValue(r[|r| - 1]) == seconds % 60
  {
    var secs := PadStartZero(NatToString(seconds % 60), 2);
    TwoDigits(seconds % 60);
    var r := FormatTime(seconds);
    assert r[|r| - 2] == secs[0] && r[|r| - 1] == secs[1];
  }

  /** Up to 99 minutes the clock is five characters whose first two read
      the minutes. */
  lemma FormatTimeMinutes(seconds: nat)
    requires seconds < 6000
    ensures var r := FormatTime(seconds);
      |r| == 5 && 10 * DigitValue(r[0]) + DigitValue(r[1]) == seconds / 60
  {
    var mins := PadStartZero(NatToString(seconds / 60), 2);
    TwoDigits(seconds % 60);
    TwoDigits(seconds / 60);
    var r := FormatTime(seconds);
    assert r[0] == mins[0] && r[1] == mins[1];
  }

  // ---------------------------------------------------------------------
  // Questions
  // ---------------------------------------------------------------------

  datatype VocabItem = VocabItem(word: string, vietnameseMeaning: string)

  datatype Question = Question(vietnamese: string, correct: string, scrambled: string)

  /** `scrambleWord`: the letters shuffled; when that gives the word back
      (ignoring case) and it has two letters or more, the first two are
      swapped.  So the scramble equals the word, ignoring case, only when
      the word's first two letters agree ignoring case. */
  method ScrambleWord(word: string) returns (r: string)
    ensures |r| == |word| && multiset(r) == multiset(word)
    ensures |word| > 1 && ToLower(r) == ToLower(word) ==> LowerChar(word[0]) == LowerChar(word[1])
  {
    var letters := Shuffle.Shuffle(word);
    if ToLower(letters) == ToLower(word) && |letters| > 1 {
      var swapped := letters[0 := letters[1]][1 := letters[0]];
      Shuffle.SwapPermutes(letters, 0, 1);
      assert ToLower(swapped)[0] == ToLower(letters)[1] && ToLower(swapped)[1] == ToLower(letters)[0];
      letters := swapped;
    }
    r := letters;
  }

  /** `createQuestions`: `min(num, |words|)` distinct vocabulary items in
      random order, each with its word scrambled. */
  method CreateQuestions(words: seq<VocabItem>, num: nat) returns (qs: seq<Question>)
    ensures |qs| == if num < |words| then num else |words|
    ensures forall q :: q in qs ==>
      multiset(q.scrambled) == multiset(q.correct) && VocabItem(q.correct, q.vietnamese) in words
  {
    var chosen := Shuffle.ShuffleTake(words, num);
    var list: seq<Question> := [];
    var i := 0;
    while i < |chosen|
      invariant 0 <= i <= |chosen| && |list| == i
      invariant forall q :: q in list ==>
        multiset(q.scrambled) == multiset(q.correct) && VocabItem(q.correct, q.vietnamese) in words
    {
      assert chosen[i] in multiset(chosen);
      var scrambled := ScrambleWord(chosen[i].word);
      list := list + [Question(chosen[i].vietnameseMeaning, chosen[i].word, scrambled)];
      i := i + 1;
    }
    qs := Shuffle.Shuffle(list);
    forall q | q in qs
      ensures q in list
    {
      assert q in multiset(qs);
    }
  }

  // ---------------------------------------------------------------------
  // Answer slots
  // ---------------------------------------------------------------------

  /** A slot: the upper-cased letter and the index in the scrambled word it
      came from, or '' and no index. */
  datatype Slot = Slot(letter: string, sourceIndex: Option<int>)

  const EmptySlot := Slot("", None)

  /** The slots, the set of used letter indices and the submitted flag. */
  datatype Round = Round(answerSlots: seq<Slot>, usedLetters: set<int>, isAnswering: bool)

  /** Filled slots carry a letter and its index, empty ones neither; no
      index fills two slots; and the used set is exactly the indices of the
      filled slots. */
  ghost predicate Consistent(r: Round) {
    (forall k :: 0 <= k < |r.answerSlots| ==>
       (r.answerSlots[k].letter == "" <==> r.answerSlots[k].sourceIndex.None?))
    && (forall k, m ::
          (0 <= k < |r.answerSlots| && 0 <= m < |r.answerSlots| && k != m && r.answerSlots[k].sourceIndex.Some?)
          ==> r.answerSlots[k].sourceIndex != r.answerSlots[m].sourceIndex)
    && (forall i :: i in r.usedLetters <==>
          exists k :: 0 <= k < |r.answerSlots| && r.answerSlots[k].sourceIndex == Some(i))
  }

  /** `findIndex(slot => slot.letter === '')` */
  function FirstEmpty(slots: seq<Slot>): (i: int)
    ensures -1 <= i < |slots|
    ensures i >= 0 ==> slots[i].letter == "" && forall k :: 0 <= k < i ==> slots[k].letter != ""
    ensures i == -1 <==> forall k :: 0 <= k < |slots| ==> slots[k].letter != ""
  {
    if slots == [] then -1
    else if slots[0].letter == "" then 0
    else var j := FirstEmpty(slots[1..]); if j == -1 then -1 else j + 1
  }

  /** `new Array(n).fill({letter: '', sourceIndex: null})` with no used letter. */
  function Fresh(n: nat, answering: bool): (r: Round)
    ensures Consistent(r) && |r.answerSlots| == n && r.usedLetters == {}
    ensures forall k :: 0 <= k < n ==> r.answerSlots[k] == EmptySlot
  {
    Round(seq(n, _ => EmptySlot), {}, answering)
  }

  /** `handleLetterClick(letterIndex, letter)`: ignored while answering, for
      a used index, or with every slot filled; otherwise the first empty
      slot takes the upper-cased letter and its index, which becomes used. */
  function LetterClicked(r: Round, letterIndex: int, letter: char): (s: Round)
    ensures r.isAnswering || letterIndex in r.usedLetters || FirstEmpty(r.answerSlots) == -1 ==> s == r
    ensures !r.isAnswering && letterIndex !in r.usedLetters && FirstEmpty(r.answerSlots) != -1 ==>
      var k := FirstEmpty(r.answerSlots);
      s.answerSlots == r.answerSlots[k := Slot([UpperChar(letter)], Some(letterIndex))]
      && s.usedLetters == r.usedLetters + {letterIndex} && s.isAnswering == r.isAnswering
  {
    if r.isAnswering || letterIndex in r.usedLetters then r
    else
      var k := FirstEmpty(r.answerSlots);
      if k == -1 then r
      else r.(answerSlots := r.answerSlots[k := Slot([UpperChar(letter)], Some(letterIndex))],
              usedLetters := r.usedLetters + {letterIndex})
  }

  /** `handleSlotClick(slotIndex)`: ignored while answering or on an empty
      slot; otherwise the slot is emptied and its source index freed. */
  function SlotClicked(r: Round, slotIndex: int): (s: Round)
    requires 0 <= slotIndex < |r.answerSlots|
    ensures r.isAnswering || r.answerSlots[slotIndex].letter == "" ==> s == r
    ensures !r.isAnswering && r.answerSlots[slotIndex].letter != "" ==>
      s.answerSlots == r.answerSlots[slotIndex := EmptySlot]
      && s.usedLetters == (match r.answerSlots[slotIndex].sourceIndex
                           case Some(i) => r.usedLetters - {i}
                           case None => r.usedLetters)
  {
    var slot := r.answerSlots[slotIndex];
    if r.isAnswering || slot.letter == "" then r
    else
      var used := match slot.sourceIndex case Some(i) => r.usedLetters - {i} case None => r.usedLetters;
      r.(answerSlots := r.answerSlots[slotIndex := EmptySlot], usedLetters := used)
  }

  /** A letter click keeps the slots and the used set in step. */
  lemma LetterClickConsistent(r: Round, letterIndex: int, letter: char)
    requires Consistent(r)
    ensures Consistent(LetterClicked(r, letterIndex, letter))
  {
    var s := LetterClicked(r, letterIndex, letter);
    if s != r {
      var k := FirstEmpty(r.answerSlots);
      assert s.answerSlots[k].sourceIndex == Some(letterIndex);
      forall i
        ensures i in s.usedLetters <==>
          exists m :: 0 <= m < |s.answerSlots| && s.answerSlots[m].sourceIndex == Some(i)
      {
        if i in r.usedLetters {
          var m :| 0 <= m < |r.answerSlots| && r.answerSlots[m].sourceIndex == Some(i);
          assert m != k;
          assert s.answerSlots[m].sourceIndex == Some(i);
        }
      }
    }
  }

  /** A slot click keeps the slots and the used set in step: it frees
      exactly the index of the letter it gives back. */
  lemma SlotClickConsistent(r: Round, slotIndex: int)
    requires Consistent(r) && 0 <= slotIndex < |r.answerSlots|
    ensures Consistent(SlotClicked(r, slotIndex))
  {
    var s := SlotClicked(r, slotIndex);
    if s != r {
      var freed := r.answerSlots[slotIndex].sourceIndex.value;
      forall i
        ensures i in s.usedLetters <==>
          exists m :: 0 <= m < |s.answerSlots| && s.answerSlots[m].sourceIndex == Some(i)
      {
        if i in s.usedLetters {
          var m :| 0 <= m < |r.answerSlots| && r.answerSlots[m].sourceIndex == Some(i);
          assert m != slotIndex;
          assert s.answerSlots[m].sourceIndex == Some(i);
        }
        if exists m :: 0 <= m < |s.answerSlots| && s.answerSlots[m].sourceIndex == Some(i) {
          var m :| 0 <= m < |s.answerSlots| && s.answerSlots[m].sourceIndex == Some(i);
          assert m != slotIndex && r.answerSlots[m].sourceIndex == Some(i);
        }
      }
    }
  }

  /** The answer the slots spell: their letters joined. */
  function SlotText(slots: seq<Slot>): (t: string)
    ensures (forall k :: 0 <= k < |slots| ==> |slots[k].letter| == 1) ==>
      |t| == |slots| && forall k :: 0 <= k < |slots| ==> t[k] == slots[k].letter[0]
  {
    if slots == [] then "" else slots[0].letter + SlotText(slots[1..])
  }

  /** `submitAnswer`'s verdict: the slot letters joined and lowered equal
      the lowered word. */
  predicate AnswerRight(slots: seq<Slot>, correct: string) {
    ToLower(SlotText(slots)) == ToLower(correct)
  }

  /** Clicking the word's own letters in order into empty slots spells it,
      so the answer is right, whatever the letters' case. */
  lemma OwnLettersRight(slots: seq<Slot>, word: string)
    requires |slots| == |word|
    requires forall k :: 0 <= k < |slots| ==> slots[k].letter == [UpperChar(word[k])]
    ensures AnswerRight(slots, word)
  {
    var t := SlotText(slots);
    assert forall k :: 0 <= k < |t| ==> LowerChar(t[k]) == LowerChar(word[k]);
  }

  // ---------------------------------------------------------------------
  // The game
  // ---------------------------------------------------------------------

  datatype Feedback = NoFeedback | Right | Wrong(correct: string)

  class AnagramActivityGame {
    const vocabWords: seq<VocabItem>
    const numQuestions: nat
    var questions: seq<Question>
    var currentQuestionIndex: int
    var isGameStarted: bool
    var isGameOver: bool
    /** Seconds on the clock, and whether the one-second interval runs. */
    var timer: nat
    var timerRunning: bool
    var score: int
    var round: Round
    var feedback: Feedback
    var store: GameStore.GameState

    /** The question index stays in the list once a game runs, the slots
        match the used set, and a started round has one slot per letter of
        the word. */
    ghost predicate Valid()
      reads this
    {
      Consistent(round)
      && (isGameStarted && |questions| > 0 ==>
            0 <= currentQuestionIndex < |questions|
            && |round.answerSlots| == |questions[currentQuestionIndex].correct|)
      && score >= 0
    }

    constructor(vocabData: seq<VocabItem>, num: nat, initialStore: GameStore.GameState)
      ensures Valid() && vocabWords == vocabData && numQuestions == num
      ensures questions == [] && currentQuestionIndex == 0 && !isGameStarted && !isGameOver
      ensures timer == 0 && !timerRunning && score == 0 && round == Fresh(0, false) && feedback == NoFeedback
      ensures store == GameStore.SetTotalQuestions(initialStore, |vocabData|)
    {
      vocabWords := vocabData;
      numQuestions := num;
      questions := [];
      currentQuestionIndex := 0;
      isGameStarted := false;
      isGameOver := false;
      timer := 0;
      timerRunning := false;
      score := 0;
      round := Fresh(0, false);
      feedback := NoFeedback;
      store := GameStore.SetTotalQuestions(initialStore, |vocabData|);
    }

    /** The one-second interval. */
    method Tick()
      requires timerRunning
      modifies this
      ensures timer == old(timer) + 1 && timerRunning
      ensures round == old(round) && score == old(score) && questions == old(questions)
      ensures currentQuestionIndex == old(currentQuestionIndex) && isGameStarted == old(isGameStarted)
      ensures isGameOver == old(isGameOver) && store == old(store) && feedback == old(feedback)
    {
      timer := timer + 1;
    }

    /** `startGame` and `restartGame`, followed by the effect that sizes the
        slots: new questions, index and score 0, the store reset to the new
        question count, the clock restarted from zero. */
    method StartGame()
      modifies this
      ensures Valid() && isGameStarted && !isGameOver && currentQuestionIndex == 0 && score == 0
      ensures |questions| == if numQuestions < |vocabWords| then numQuestions else |vocabWords|
      ensures forall q :: q in questions ==>
        multiset(q.scrambled) == multiset(q.correct) && VocabItem(q.correct, q.vietnamese) in vocabWords
      ensures round == Fresh(if |questions| > 0 then |questions[0].correct| else 0, false)
      ensures feedback == NoFeedback && timer == 0 && timerRunning
      ensures store == GameStore.SetTotalQuestions(GameStore.ResetGame(old(store)), |questions|)
    {
      var newQuestions := CreateQuestions(vocabWords, numQuestions);
      questions := newQuestions;
      currentQuestionIndex := 0;
      score := 0;
      isGameStarted := true;
      isGameOver := false;
      feedback := NoFeedback;
      timer := 0;
      timerRunning := true;
      store := GameStore.SetTotalQuestions(GameStore.ResetGame(store), |newQuestions|);
      round := Fresh(if |newQuestions| > 0 then |newQuestions[0].correct| else 0, false);
    }

    method HandleLetterClick(letterIndex: int, letter: char)
      requires Valid()
      modifies this
      ensures Valid() && round == LetterClicked(old(round), letterIndex, letter)
      ensures questions == old(questions) && currentQuestionIndex == old(currentQuestionIndex)
      ensures score == old(score) && store == old(store) && feedback == old(feedback)
      ensures isGameStarted == old(isGameStarted) && isGameOver == old(isGameOver) && timer == old(timer)
    {
      LetterClickConsistent(round, letterIndex, letter);
      round := LetterClicked(round, letterIndex, letter);
    }

    method HandleSlotClick(slotIndex: int)
      requires Valid() && 0 <= slotIndex < |round.answerSlots|
      modifies this
      ensures Valid() && round == SlotClicked(old(round), slotIndex)
      ensures questions == old(questions) && currentQuestionIndex == old(currentQuestionIndex)
      ensures score == old(score) && store == old(store) && feedback == old(feedback)
      ensures isGameStarted == old(isGameStarted) && isGameOver == old(isGameOver) && timer == old(timer)
    {
      SlotClickConsistent(round, slotIndex);
      round := SlotClicked(round, slotIndex);
    }

    /** `clearAnswer`: ignored while answering; otherwise every slot empties
        and no letter is used. */
    method ClearAnswer()
      requires Valid() && 0 <= currentQuestionIndex < |questions|
      modifies this
      ensures questions == old(questions) && currentQuestionIndex == old(currentQuestionIndex)
      ensures Valid()
      ensures old(round).isAnswering ==> round == old(round) && feedback == old(feedback)
      ensures !old(round).isAnswering ==>
        round == Fresh(|questions[currentQuestionIndex].correct|, false) && feedback == NoFeedback
      ensures score == old(score) && store == old(store)
      ensures isGameStarted == old(isGameStarted) && isGameOver == old(isGameOver) && timer == old(timer)
    {
      if round.isAnswering {
        return;
      }
      round := Fresh(|questions[currentQuestionIndex].correct|, false);
      feedback := NoFeedback;
    }

    /** `submitAnswer`: ignored while answering; otherwise the round locks
        and a right answer scores one point and counts as correct in the
        store, a wrong one counts as incorrect. */
    method SubmitAnswer()
      requires Valid() && 0 <= currentQuestionIndex < |questions|
      modifies this
      ensures questions == old(questions) && currentQuestionIndex == old(currentQuestionIndex)
      ensures Valid()
      ensures old(round).isAnswering ==> round == old(round) && score == old(score) && store == old(store)
      ensures !old(round).isAnswering ==>
        var right := AnswerRight(old(round).answerSlots, questions[currentQuestionIndex].correct);
        round == old(round).(isAnswering := true)
        && score == (if right then old(score) + 1 else old(score))
        && store == (if right then GameStore.AnswerCorrect(old(store)) else GameStore.AnswerIncorrect(old(store)))
        && feedback == (if right then Right else Wrong(questions[currentQuestionIndex].correct))
      ensures isGameStarted == old(isGameStarted) && isGameOver == old(isGameOver) && timer == old(timer)
    {
      if round.isAnswering {
        return;
      }
      round := round.(isAnswering := true);
      var q := questions[currentQuestionIndex];
      if AnswerRight(round.answerSlots, q.correct) {
        score := score + 1;
        store := GameStore.AnswerCorrect(store);
        feedback := Right;
      } else {
        store := GameStore.AnswerIncorrect(store);
        feedback := Wrong(q.correct);
      }
    }

    /** `goToNextQuestion` with the slot effect: the next question with
        fresh slots, or, after the last, game over and the clock stopped. */
    method GoToNextQuestion()
      requires Valid() && isGameStarted && 0 <= currentQuestionIndex < |questions|
      modifies this
      ensures questions == old(questions) && score == old(score) && store == old(store) && timer == old(timer)
      ensures Valid()
      ensures old(currentQuestionIndex) + 1 < |questions| ==>
        currentQuestionIndex == old(currentQuestionIndex) + 1
        && round == Fresh(|questions[currentQuestionIndex].correct|, false) && feedback == NoFeedback
        && isGameOver == old(isGameOver) && timerRunning == old(timerRunning)
      ensures old(currentQuestionIndex) + 1 >= |questions| ==>
        currentQuestionIndex == old(currentQuestionIndex) && round == old(round) && isGameOver && !timerRunning
      ensures isGameStarted == old(isGameStarted)
    {
      var nextIndex := currentQuestionIndex + 1;
      if nextIndex < |questions| {
        currentQuestionIndex := nextIndex;
        round := Fresh(|questions[nextIndex].correct|, false);
        feedback := NoFeedback;
      } else {
        isGameOver := true;
        timerRunning := false;
      }
    }
  }
}
