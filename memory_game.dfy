/**
 * The memory game (`MemoryGame`): up to eight drawn words are dealt face
 * down as pairs of cards. Two cards turned up in a row are checked 0.7 s
 * later; a pair stays face up as matched, any other two are turned back
 * down. `moves` counts the turned-up pairs.
 */
module MemoryGame {
  import opened Wrappers
  import opened CardDeck
  import Shuffle
  import GameStore

  datatype VocabItem = VocabItem(word: string, vietnameseMeaning: string, image: Option<string>)

  function Min(a: nat, b: nat): nat { if a < b then a else b }

  function FaceOf(v: VocabItem): Word { Word(v.word, v.vietnameseMeaning, v.image) }

  /** The faces of the drawn words, in order. */
  function Faces(ws: seq<VocabItem>): (r: seq<Word>)
    ensures |r| == |ws| && forall k :: 0 <= k < |ws| ==> r[k] == FaceOf(ws[k])
  {
    if ws == [] then [] else [FaceOf(ws[0])] + Faces(ws[1..])
  }

  /** `createGameData`: `min(num, |words|)` words drawn from a shuffle, each
      dealt as a pair showing its word and its meaning, shuffled again. */
  method CreateGameData(words: seq<VocabItem>, num: nat) returns (cards: seq<Card>, ghost drawn: seq<VocabItem>)
    ensures |drawn| == Min(num, |words|) && multiset(drawn) <= multiset(words)
    ensures multiset(cards) == multiset(Dealt(Faces(drawn)))
    ensures Deck(cards, |drawn|) && AllShow(cards, Faces(drawn))
    ensures forall k :: 0 <= k < |cards| ==> !cards[k].matched
  {
    var shuffledWords := Shuffle.ShuffleTake(words, num);
    cards := Deal(Faces(shuffledWords));
    drawn := shuffledWords;
  }

  /** The game's own state apart from the clock and the lifecycle flags:
      `gameData`, `selectedCards`, `matchedPairs`, `flippedCards`, `moves`. */
  datatype Board = Board(cards: seq<Card>, selected: seq<nat>, matchedPairs: seq<nat>,
                         flipped: set<nat>, moves: nat)

  const EmptyBoard := Board([], [], [], {}, 0)

  /** What holds all game long for a deck of `n` pairs: the matched pairs
      agree with the cards, and the selection is at most two different
      unmatched cards, all face up. */
  ghost predicate Consistent(b: Board, n: nat) {
    Deck(b.cards, n) && Marked(b.cards, b.matchedPairs, n) && Selection(b.cards, b.selected)
    && forall i :: 0 <= i < |b.selected| ==> b.selected[i] in b.flipped
  }

  /** `handleCardClick(index)`; `active` is `isGameStarted && !isGameOver`. */
  function Clicked(b: Board, index: nat, active: bool): (r: Board)
    requires active ==> index < |b.cards|
    ensures !active || b.cards[index].matched || index in b.flipped || |b.selected| >= 2 ==> r == b
    ensures active && !b.cards[index].matched && index !in b.flipped && |b.selected| < 2 ==>
      r.cards == b.cards && r.matchedPairs == b.matchedPairs
      && r.flipped == b.flipped + {index} && r.selected == b.selected + [index]
      && r.moves == (if |r.selected| == 2 then b.moves + 1 else b.moves)
  {
    if !active then b
    else if b.cards[index].matched || index in b.flipped then b
    else if |b.selected| >= 2 then b
    else
      var newSelected := b.selected + [index];
      b.(flipped := b.flipped + {index}, selected := newSelected,
         moves := if |newSelected| == 2 then b.moves + 1 else b.moves)
  }

  lemma ClickedConsistent(b: Board, n: nat, index: nat, active: bool)
    requires Consistent(b, n) && (active ==> index < |b.cards|)
    ensures Consistent(Clicked(b, index, active), n)
  {
  }

  predicate Checkable(b: Board) {
    |b.selected| == 2 && b.selected[0] < |b.cards| && b.selected[1] < |b.cards|
  }

  predicate SelectionMatches(b: Board)
    requires Checkable(b)
  {
    IsMatch(b.cards[b.selected[0]], b.cards[b.selected[1]])
  }

  /** `checkMatch`: a pair is marked matched and its id recorded; two other
      cards are turned back down; the selection is emptied either way. */
  function Checked(b: Board): (r: Board)
    requires Checkable(b)
    ensures r.selected == [] && r.moves == b.moves
    ensures SelectionMatches(b) ==>
      r.cards == MarkPair(b.cards, b.selected[0], b.selected[1])
      && r.matchedPairs == b.matchedPairs + [b.cards[b.selected[0]].id] && r.flipped == b.flipped
    ensures !SelectionMatches(b) ==>
      r.cards == b.cards && r.matchedPairs == b.matchedPairs
      && r.flipped == b.flipped - {b.selected[0], b.selected[1]}
  {
    var i, j := b.selected[0], b.selected[1];
    var card1, card2 := b.cards[i], b.cards[j];
    if IsMatch(card1, card2) then
      b.(cards := MarkPair(b.cards, i, j), matchedPairs := b.matchedPairs + [card1.id], selected := [])
    else
      b.(flipped := b.flipped - {i, j}, selected := [])
  }

  function CheckedStore(b: Board, store: GameStore.GameState): (s: GameStore.GameState)
    requires Checkable(b)
    ensures SelectionMatches(b) ==> s == GameStore.AnswerCorrect(store)
    ensures !SelectionMatches(b) ==> s == GameStore.AnswerIncorrect(store)
  {
    if SelectionMatches(b) then GameStore.AnswerCorrect(store) else GameStore.AnswerIncorrect(store)
  }

  /** `matchedPairs.length + 1 === numQuestions` after a match. */
  predicate Completes(b: Board, numQuestions: nat)
    requires Checkable(b)
  {
    SelectionMatches(b) && |b.matchedPairs| + 1 == numQuestions
  }

  lemma CheckedConsistent(b: Board, n: nat)
    requires Consistent(b, n) && |b.selected| == 2
    ensures Consistent(Checked(b), n)
  {
    if SelectionMatches(b) {
      MarkPairKeepsDeck(b.cards, n, b.selected[0], b.selected[1]);
      MarkPairMarks(b.cards, b.matchedPairs, n, b.selected[0], b.selected[1]);
    }
  }

  lemma CheckedShows(b: Board, ws: seq<Word>)
    requires Checkable(b) && AllShow(b.cards, ws)
    ensures AllShow(Checked(b).cards, ws)
  {
    if SelectionMatches(b) {
      MarkPairShows(b.cards, ws, b.selected[0], b.selected[1]);
    }
  }

  /** The game says over only after `numQuestions` matches, and then the
      whole deck is matched (a deck never has more pairs than
      `numQuestions`). */
  lemma OverMeansAllMatched(b: Board, n: nat, numQuestions: nat)
    requires Consistent(b, n) && n <= numQuestions && |b.matchedPairs| == numQuestions
    ensures n == numQuestions
    ensures forall k :: 0 <= k < |b.cards| ==> b.cards[k].matched
  {
    PairsBelow(b.cards, b.matchedPairs, n);
    AllMatchedIffAllPairs(b.cards, b.matchedPairs, n);
  }

  /** What `startGame` sets up. */
  ghost predicate NewGameFacts(vocab: seq<VocabItem>, numQuestions: nat, oldStore: GameStore.GameState,
                               b: Board, drawn: seq<VocabItem>, store: GameStore.GameState) {
    |drawn| == Min(numQuestions, |vocab|) && multiset(drawn) <= multiset(vocab)
    && b.selected == [] && b.matchedPairs == [] && b.flipped == {} && b.moves == 0
    && Deck(b.cards, |drawn|) && AllShow(b.cards, Faces(drawn))
    && (forall k :: 0 <= k < |b.cards| ==> !b.cards[k].matched)
    && store == GameStore.SetTotalQuestions(GameStore.ResetGame(oldStore), numQuestions)
  }

  method NewGame(vocab: seq<VocabItem>, numQuestions: nat, oldStore: GameStore.GameState)
    returns (b: Board, store: GameStore.GameState, ghost drawn: seq<VocabItem>)
    ensures NewGameFacts(vocab, numQuestions, oldStore, b, drawn, store)
    ensures Consistent(b, |drawn|)
  {
    var cards;
    cards, drawn := CreateGameData(vocab, numQuestions);
    b := Board(cards, [], [], {}, 0);
    store := GameStore.SetTotalQuestions(GameStore.ResetGame(oldStore), numQuestions);
  }

  class MemoryGameCore {
    const vocabWords: seq<VocabItem>
    const numQuestions: nat
    var board: Board
    var isGameStarted: bool
    var isGameOver: bool
    var timer: nat
    var timerRunning: bool
    var store: GameStore.GameState
    /** The words of the current deal. */
    ghost var drawn: seq<VocabItem>

    ghost predicate Valid()
      reads this
    {
      Consistent(board, |drawn|) && AllShow(board.cards, Faces(drawn))
      && multiset(drawn) <= multiset(vocabWords) && |drawn| <= numQuestions
      && (|board.selected| > 0 ==> isGameStarted && !isGameOver)
      && (isGameStarted && isGameOver ==> |board.matchedPairs| == numQuestions)
    }

    /** Mounting: `numQuestions` defaults to `min(|vocab|, 8)`. */
    constructor(vocabData: seq<VocabItem>, num: Option<nat>, initialStore: GameStore.GameState)
      ensures Valid() && vocabWords == vocabData && board == EmptyBoard
      ensures numQuestions == (if num.Some? then num.value else Min(|vocabData|, 8))
      ensures !isGameStarted && !isGameOver && timer == 0 && !timerRunning
      ensures store == GameStore.ResetGame(GameStore.SetTotalQuestions(initialStore, |vocabData|))
    {
      vocabWords := vocabData;
      numQuestions := if num.Some? then num.value else if |vocabData| > 8 then 8 else |vocabData|;
      board := EmptyBoard;
      isGameStarted := false;
      isGameOver := false;
      timer := 0;
      timerRunning := false;
      store := GameStore.ResetGame(GameStore.SetTotalQuestions(initialStore, |vocabData|));
      drawn := [];
    }

    method Tick()
      requires timerRunning
      modifies this
      ensures timer == old(timer) + 1 && timerRunning && board == old(board) && store == old(store)
      ensures isGameStarted == old(isGameStarted) && isGameOver == old(isGameOver)
    {
      timer := timer + 1;
    }

    method StartGame()
      modifies this
      ensures Valid() && isGameStarted && !isGameOver && timer == 0 && timerRunning
      ensures NewGameFacts(vocabWords, numQuestions, old(store), board, drawn, store)
    {
      board, store, drawn := NewGame(vocabWords, numQuestions, store);
      isGameStarted := true;
      isGameOver := false;
      timer := 0;
      timerRunning := true;
    }

    /** `restartGame`: back to the start screen; the clock stops but keeps
        its reading. */
    method RestartGame()
      modifies this
      ensures Valid() && board == EmptyBoard && !isGameStarted && !isGameOver
      ensures !timerRunning && timer == old(timer) && store == GameStore.ResetGame(old(store))
    {
      timerRunning := false;
      isGameStarted := false;
      isGameOver := false;
      board := EmptyBoard;
      store := GameStore.ResetGame(store);
      drawn := [];
    }

    /** `handleCardClick(index)`; the check it schedules is `CheckMatch`. */
    method CardClick(index: nat)
      requires Valid() && (isGameStarted && !isGameOver ==> index < |board.cards|)
      modifies this
      ensures Valid() && board == Clicked(old(board), index, old(isGameStarted) && !old(isGameOver))
      ensures store == old(store) && timer == old(timer) && timerRunning == old(timerRunning)
      ensures isGameStarted == old(isGameStarted) && isGameOver == old(isGameOver) && drawn == old(drawn)
    {
      ClickedConsistent(board, |drawn|, index, isGameStarted && !isGameOver);
      board := Clicked(board, index, isGameStarted && !isGameOver);
    }

    /** The `checkMatch` timeout, scheduled when a second card is turned. */
    method CheckMatch()
      requires Valid() && |board.selected| == 2
      modifies this
      ensures Valid() && board == Checked(old(board)) && store == CheckedStore(old(board), old(store))
      ensures isGameOver == Completes(old(board), numQuestions)
      ensures timerRunning == (old(timerRunning) && !Completes(old(board), numQuestions))
      ensures timer == old(timer) && isGameStarted == old(isGameStarted) && drawn == old(drawn)
    {
      CheckedConsistent(board, |drawn|);
      CheckedShows(board, Faces(drawn));
      var completes := Completes(board, numQuestions);
      store := CheckedStore(board, store);
      board := Checked(board);
      if completes {
        isGameOver := true;
        timerRunning := false;
      }
    }

    /** The results dialog says "You matched all pairs": true whenever it
        shows. */
    lemma AllMatchedWhenOver()
      requires Valid() && isGameStarted && isGameOver
      ensures forall k :: 0 <= k < |board.cards| ==> board.cards[k].matched
    {
      OverMeansAllMatched(board, |drawn|, numQuestions);
    }

    /** The results dialog's close button. */
    method CloseResults()
      requires Valid()
      modifies this
      ensures Valid() && !isGameOver && isGameStarted == old(isGameStarted) && board == old(board)
      ensures store == old(store) && timer == old(timer) && timerRunning == old(timerRunning)
    {
      isGameOver := false;
    }
  }
}
