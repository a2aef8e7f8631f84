/**
 * The matching game (`MatchingGame`): every lesson word is dealt face up as
 * a pair of cards, its word and its meaning. Two cards selected in a row are
 * checked 0.2 s later; a pair is marked matched, any other two stay as they
 * were. The cards of this game carry no picture.
 */
module MatchingGame {
  import opened CardDeck
  import opened Wrappers
  import GameStore

  datatype VocabItem = VocabItem(word: string, vietnameseMeaning: string)

  function FaceOf(v: VocabItem): Word { Word(v.word, v.vietnameseMeaning, None) }

  function Faces(ws: seq<VocabItem>): (r: seq<Word>)
    ensures |r| == |ws| && forall k :: 0 <= k < |ws| ==> r[k] == FaceOf(ws[k])
  {
    if ws == [] then [] else [FaceOf(ws[0])] + Faces(ws[1..])
  }

  /** `createGameData`: a pair for every word, shuffled. */
  method CreateGameData(words: seq<VocabItem>) returns (cards: seq<Card>)
    ensures multiset(cards) == multiset(Dealt(Faces(words)))
    ensures Deck(cards, |words|) && AllShow(cards, Faces(words))
    ensures forall k :: 0 <= k < |cards| ==> !cards[k].matched
  {
    cards := Deal(Faces(words));
  }

  /** `gameData`, `selectedCards` and `matchedPairs`. */
  datatype Board = Board(cards: seq<Card>, selected: seq<nat>, matchedPairs: seq<nat>)

  const EmptyBoard := Board([], [], [])

  ghost predicate Consistent(b: Board, n: nat) {
    Deck(b.cards, n) && Marked(b.cards, b.matchedPairs, n) && Selection(b.cards, b.selected)
  }

  /** `handleCardClick(index)`; `active` is `isGameStarted && !isGameOver`. */
  function Clicked(b: Board, index: nat, active: bool): (r: Board)
    requires active ==> index < |b.cards|
    ensures !active || b.cards[index].matched || index in b.selected || |b.selected| >= 2 ==> r == b
    ensures active && !b.cards[index].matched && index !in b.selected && |b.selected| < 2 ==>
      r.cards == b.cards && r.matchedPairs == b.matchedPairs && r.selected == b.selected + [index]
  {
    if !active then b
    else if b.cards[index].matched || index in b.selected then b
    else if |b.selected| >= 2 then b
    else b.(selected := b.selected + [index])
  }

  lemma ClickedConsistent(b: Board, n: nat, index: nat, active: bool)
    requires Consistent(b, n) && (active ==> index < |b.cards|)
    ensures Consistent(Clicked(b, index, active), n)
  {
  }

  predicate Checkable(b: Board) {
    |b.selected| == 2 && b.selected[0] < |b.cards| && b.selected[1] < |b.cards|
  }

  predicate SelectionMatches(b: Board)
    requires Checkable(b)
  {
    IsMatch(b.cards[b.selected[0]], b.cards[b.selected[1]])
  }

  /** `checkMatch`: a pair is marked matched and its id recorded; otherwise
      the cards are left as they are; the selection is emptied either way. */
  function Checked(b: Board): (r: Board)
    requires Checkable(b)
    ensures r.selected == []
    ensures SelectionMatches(b) ==>
      r.cards == MarkPair(b.cards, b.selected[0], b.selected[1])
      && r.matchedPairs == b.matchedPairs + [b.cards[b.selected[0]].id]
    ensures !SelectionMatches(b) ==> r.cards == b.cards && r.matchedPairs == b.matchedPairs
  {
    var i, j := b.selected[0], b.selected[1];
    if IsMatch(b.cards[i], b.cards[j]) then
      Board(MarkPair(b.cards, i, j), [], b.matchedPairs + [b.cards[i].id])
    else
      b.(selected := [])
  }

  function CheckedStore(b: Board, store: GameStore.GameState): (s: GameStore.GameState)
    requires Checkable(b)
    ensures SelectionMatches(b) ==> s == GameStore.AnswerCorrect(store)
    ensures !SelectionMatches(b) ==> s == GameStore.AnswerIncorrect(store)
  {
    if SelectionMatches(b) then GameStore.AnswerCorrect(store) else GameStore.AnswerIncorrect(store)
  }

  /** `matchedPairs.length + 1 === vocabWords.length` after a match. */
  predicate Completes(b: Board, pairs: nat)
    requires Checkable(b)
  {
    SelectionMatches(b) && |b.matchedPairs| + 1 == pairs
  }

  lemma CheckedConsistent(b: Board, n: nat)
    requires Consistent(b, n) && |b.selected| == 2
    ensures Consistent(Checked(b), n)
  {
    if SelectionMatches(b) {
      MarkPairKeepsDeck(b.cards, n, b.selected[0], b.selected[1]);
      MarkPairMarks(b.cards, b.matchedPairs, n, b.selected[0], b.selected[1]);
    }
  }

  lemma CheckedShows(b: Board, ws: seq<Word>)
    requires Checkable(b) && AllShow(b.cards, ws)
    ensures AllShow(Checked(b).cards, ws)
  {
    if SelectionMatches(b) {
      MarkPairShows(b.cards, ws, b.selected[0], b.selected[1]);
    }
  }

  /** A check completes the game exactly when it matches the last unmatched
      pair: before it one pair is left, after it every card is matched. */
  lemma CompletesIffLastPair(b: Board, n: nat)
    requires Consistent(b, n) && |b.selected| == 2
    ensures Completes(b, n) <==> forall k :: 0 <= k < |b.cards| ==> Checked(b).cards[k].matched
  {
    CheckedConsistent(b, n);
    var r := Checked(b);
    AllMatchedIffAllPairs(r.cards, r.matchedPairs, n);
    if !SelectionMatches(b) {
      var i := b.selected[0];
      assert !r.cards[i].matched;
    }
  }

  /** What `startGame` sets up. */
  ghost predicate NewGameFacts(vocab: seq<VocabItem>, oldStore: GameStore.GameState,
                               b: Board, store: GameStore.GameState) {
    b.selected == [] && b.matchedPairs == []
    && Deck(b.cards, |vocab|) && AllShow(b.cards, Faces(vocab))
    && (forall k :: 0 <= k < |b.cards| ==> !b.cards[k].matched)
    && store == GameStore.SetTotalQuestions(GameStore.ResetGame(oldStore), |vocab|)
  }

  /** A freshly dealt deck with nothing selected or matched is a new game. */
  lemma FreshBoard(vocab: seq<VocabItem>, oldStore: GameStore.GameState, cards: seq<Card>)
    requires Deck(cards, |vocab|) && AllShow(cards, Faces(vocab))
    requires forall k :: 0 <= k < |cards| ==> !cards[k].matched
    ensures var store := GameStore.SetTotalQuestions(GameStore.ResetGame(oldStore), |vocab|);
      NewGameFacts(vocab, oldStore, Board(cards, [], []), store) && Consistent(Board(cards, [], []), |vocab|)
  {
  }

  method NewGame(vocab: seq<VocabItem>, oldStore: GameStore.GameState)
    returns (b: Board, store: GameStore.GameState)
    ensures NewGameFacts(vocab, oldStore, b, store) && Consistent(b, |vocab|)
  {
    var cards := CreateGameData(vocab);
    FreshBoard(vocab, oldStore, cards);
    b := Board(cards, [], []);
    store := GameStore.SetTotalQuestions(GameStore.ResetGame(oldStore), |vocab|);
  }

  class MatchingGameCore {
    const vocabWords: seq<VocabItem>
    var board: Board
    var isGameStarted: bool
    var isGameOver: bool
    var timer: nat
    var timerRunning: bool
    var store: GameStore.GameState

    /** Off the start screen the board holds the whole lesson's deck;
        game over means every pair is matched. */
    ghost predicate Valid()
      reads this
    {
      (if isGameStarted then Consistent(board, |vocabWords|) && AllShow(board.cards, Faces(vocabWords))
       else board == EmptyBoard)
      && (|board.selected| > 0 ==> isGameStarted && !isGameOver)
      && (isGameStarted && isGameOver ==> |board.matchedPairs| == |vocabWords|)
    }

    /** Mounting sets the total to the number of words. */
    constructor(vocabData: seq<VocabItem>, initialStore: GameStore.GameState)
      ensures Valid() && vocabWords == vocabData && board == EmptyBoard
      ensures !isGameStarted && !isGameOver && timer == 0 && !timerRunning
      ensures store == GameStore.SetTotalQuestions(initialStore, |vocabData|)
    {
      vocabWords := vocabData;
      board := EmptyBoard;
      isGameStarted := false;
      isGameOver := false;
      timer := 0;
      timerRunning := false;
      store := GameStore.SetTotalQuestions(initialStore, |vocabData|);
    }

    method Tick()
      requires timerRunning
      modifies this
      ensures timer == old(timer) + 1 && timerRunning && board == old(board) && store == old(store)
      ensures isGameStarted == old(isGameStarted) && isGameOver == old(isGameOver)
    {
      timer := timer + 1;
    }

    method StartGame()
      modifies this
      ensures Valid() && isGameStarted && !isGameOver && timer == 0 && timerRunning
      ensures NewGameFacts(vocabWords, old(store), board, store)
    {
      board, store := NewGame(vocabWords, store);
      isGameStarted := true;
      isGameOver := false;
      timer := 0;
      timerRunning := true;
    }

    /** `restartGame`: back to the start screen; the clock stops but keeps
        its reading. */
    method RestartGame()
      modifies this
      ensures Valid() && board == EmptyBoard && !isGameStarted && !isGameOver
      ensures !timerRunning && timer == old(timer) && store == GameStore.ResetGame(old(store))
    {
      timerRunning := false;
      isGameStarted := false;
      isGameOver := false;
      board := EmptyBoard;
      store := GameStore.ResetGame(store);
    }

    /** `handleCardClick(index)`; the check it schedules is `CheckMatch`. */
    method CardClick(index: nat)
      requires Valid() && (isGameStarted && !isGameOver ==> index < |board.cards|)
      modifies this
      ensures Valid() && board == Clicked(old(board), index, old(isGameStarted) && !old(isGameOver))
      ensures store == old(store) && timer == old(timer) && timerRunning == old(timerRunning)
      ensures isGameStarted == old(isGameStarted) && isGameOver == old(isGameOver)
    {
      if isGameStarted {
        ClickedConsistent(board, |vocabWords|, index, !isGameOver);
      }
      board := Clicked(board, index, isGameStarted && !isGameOver);
    }

    /** The `checkMatch` timeout, scheduled when a second card is selected. */
    method CheckMatch()
      requires Valid() && |board.selected| == 2
      modifies this
      ensures Valid() && board == Checked(old(board)) && store == CheckedStore(old(board), old(store))
      ensures isGameOver == Completes(old(board), |vocabWords|)
      ensures timerRunning == (old(timerRunning) && !Completes(old(board), |vocabWords|))
      ensures timer == old(timer) && isGameStarted == old(isGameStarted)
    {
      CheckedConsistent(board, |vocabWords|);
      CheckedShows(board, Faces(vocabWords));
      var completes := Completes(board, |vocabWords|);
      board, store := Checked(board), CheckedStore(board, store);
      if completes {
        isGameOver := true;
        timerRunning := false;
      }
    }

    /** The results dialog says "You matched all pairs": true whenever it
        shows. */
    lemma AllMatchedWhenOver()
      requires Valid() && isGameStarted && isGameOver
      ensures forall k :: 0 <= k < |board.cards| ==> board.cards[k].matched
    {
      AllMatchedIffAllPairs(board.cards, board.matchedPairs, |vocabWords|);
    }

    method CloseResults()
      requires Valid()
      modifies this
      ensures Valid() && !isGameOver && isGameStarted == old(isGameStarted) && board == old(board)
      ensures store == old(store) && timer == old(timer) && timerRunning == old(timerRunning)
    {
      isGameOver := false;
    }
  }
}
