/**
 * The picture game whose image hides under a 4x4 cover of tiles
 * (`ImageRevealChoiceGame`). Each opened tile costs a point of the ten a right
 * answer earns, down to a minimum of one; the options are made as in the
 * picture-choice game, one question per vocabulary item.
 */
module ImageReveal {
  import opened Wrappers
  import opened Text
  import Shuffle
  import GameStore
  import PictureChoiceEn

  type VocabItem = PictureChoiceEn.VocabItem
  type Question = PictureChoiceEn.Question

  const GridSize: nat := 4

  /** The id `${r}-${c}` of the tile in row `r` and column `c`. */
  function TileId(r: nat, c: nat): string {
    NatToString(r) + "-" + NatToString(c)
  }

  /** Tiles of different cells have different ids. */
  lemma TileIdsDiffer(r: nat, c: nat, r2: nat, c2: nat)
    requires r < 10 && c < 10 && r2 < 10 && c2 < 10
    requires r != r2 || c != c2
    ensures TileId(r, c) != TileId(r2, c2)
  {
    assert TileId(r, c) == [DigitChar(r), '-', DigitChar(c)];
    assert TileId(r2, c2) == [DigitChar(r2), '-', DigitChar(c2)];
    assert TileId(r, c)[0] == DigitChar(r) && TileId(r2, c2)[0] == DigitChar(r2);
    assert TileId(r, c)[2] == DigitChar(c) && TileId(r2, c2)[2] == DigitChar(c2);
  }

  /** `renderGrid`: the tiles row by row, 16 of them, all different. */
  method Grid() returns (tiles: seq<string>)
    ensures |tiles| == GridSize * GridSize
    ensures forall k :: 0 <= k < |tiles| ==> tiles[k] == TileId(k / GridSize, k % GridSize)
    ensures forall i, j :: 0 <= i < |tiles| && 0 <= j < |tiles| && i != j ==> tiles[i] != tiles[j]
  {
    tiles := [];
    var r := 0;
    while r < GridSize
      invariant 0 <= r <= GridSize && |tiles| == r * GridSize
      invariant forall k :: 0 <= k < |tiles| ==> tiles[k] == TileId(k / GridSize, k % GridSize)
    {
      var c := 0;
      while c < GridSize
        invariant 0 <= c <= GridSize && |tiles| == r * GridSize + c
        invariant forall k :: 0 <= k < |tiles| ==> tiles[k] == TileId(k / GridSize, k % GridSize)
      {
        assert (r * GridSize + c) / GridSize == r && (r * GridSize + c) % GridSize == c;
        tiles := tiles + [TileId(r, c)];
        c := c + 1;
      }
      r := r + 1;
    }
    forall i, j | 0 <= i < |tiles| && 0 <= j < |tiles| && i != j
      ensures tiles[i] != tiles[j]
    {
      TileIdsDiffer(i / GridSize, i % GridSize, j / GridSize, j % GridSize);
    }
  }

  /** `Math.max(1, 10 - penalty)`: ten points less one per opened tile, but
      never less than one. */
  function Points(revealed: nat): (r: nat)
    ensures 1 <= r <= 10
    ensures revealed <= 9 ==> r == 10 - revealed
    ensures revealed >= 9 ==> r == 1
  {
    if 10 - revealed > 1 then 10 - revealed else 1
  }

  /** Opening one more tile never earns more. */
  lemma PointsFall(n: nat, m: nat)
    requires n <= m
    ensures Points(m) <= Points(n)
  {
  }

  /** `createQuestions`: one question per item with its own options, in a
      new random order. */
  method CreateQuestions(words: seq<VocabItem>) returns (qs: seq<Question>)
    ensures |qs| == |words|
    ensures forall q :: q in qs ==> PictureChoiceEn.OptionsFor(q.options, q.correct, PictureChoiceEn.Words(words))
    ensures multiset(Shuffle.MapSeq(PictureChoiceEn.CorrectOf, qs)) == multiset(PictureChoiceEn.Words(words))
  {
    var list: seq<Question> := [];
    var i := 0;
    while i < |words|
      invariant 0 <= i <= |words| && |list| == i
      invariant forall k :: 0 <= k < i ==> list[k].correct == words[k].word
      invariant forall q :: q in list ==> PictureChoiceEn.OptionsFor(q.options, q.correct, PictureChoiceEn.Words(words))
    {
      var options := PictureChoiceEn.MakeOptions(words[i].word, words);
      list := list + [PictureChoiceEn.Question(PictureChoiceEn.ImageOf(words[i]), words[i].word, options)];
      i := i + 1;
    }
    qs := Shuffle.Shuffle(list);
    forall q | q in qs
      ensures q in list
    {
      assert q in multiset(qs);
    }
    PictureChoiceEn.CorrectsAreWords(list, words);
    Shuffle.MapPermute(PictureChoiceEn.CorrectOf, qs, list);
  }

  datatype Feedback = NoFeedback | Right(points: nat, tilesOpen: nat) | Wrong(correct: string)

  datatype Play = Play(questions: seq<Question>, currentQuestionIndex: int, score: int,
                       isAnswering: bool, revealed: set<string>, selectedOption: Option<string>,
                       showFeedback: bool, feedback: Feedback)

  ghost predicate PlayOk(p: Play) {
    p.score >= 0 && p.currentQuestionIndex >= 0
  }

  const NoPlay := Play([], 0, 0, false, {}, None, false, NoFeedback)

  predicate HasCurrent(p: Play) {
    0 <= p.currentQuestionIndex < |p.questions|
  }

  function StartPlay(qs: seq<Question>): (p: Play)
    ensures PlayOk(p) && p.questions == qs && p.currentQuestionIndex == 0 && p.score == 0
    ensures !p.isAnswering && p.revealed == {} && p.selectedOption == None && !p.showFeedback
    ensures p.feedback == NoFeedback && (HasCurrent(p) <==> |qs| > 0)
  {
    Play(qs, 0, 0, false, {}, None, false, NoFeedback)
  }

  /** `handleTileClick`: the tile opens unless the question is answered;
      an open tile stays open. */
  function TileClicked(p: Play, tileId: string): (r: Play)
    ensures p.isAnswering ==> r == p
    ensures !p.isAnswering ==> r == p.(revealed := p.revealed + {tileId})
  {
    if p.isAnswering || tileId in p.revealed then p
    else p.(revealed := p.revealed + {tileId})
  }

  /** Clicking a tile twice is clicking it once. */
  lemma TileClickIdempotent(p: Play, tileId: string)
    ensures TileClicked(TileClicked(p, tileId), tileId) == TileClicked(p, tileId)
  {
  }

  /** `handleOptionClick`: ignored once the question is answered; otherwise
      the option is marked and the question locks; a right option earns
      `Points` of the opened tiles, a wrong one nothing. */
  function Clicked(p: Play, option: string): (r: Play)
    requires PlayOk(p) && (!p.isAnswering ==> HasCurrent(p))
    ensures PlayOk(r) && r.questions == p.questions && r.currentQuestionIndex == p.currentQuestionIndex
    ensures r.revealed == p.revealed
    ensures p.isAnswering ==> r == p
    ensures !p.isAnswering ==>
      var correct := p.questions[p.currentQuestionIndex].correct;
      r.isAnswering && r.showFeedback && r.selectedOption == Some(option)
      && (option == correct ==> r.score == p.score + Points(|p.revealed|)
                                && r.feedback == Right(Points(|p.revealed|), |p.revealed|))
      && (option != correct ==> r.score == p.score && r.feedback == Wrong(correct))
  {
    if p.isAnswering then p
    else
      var correct := p.questions[p.currentQuestionIndex].correct;
      var marked := p.(selectedOption := Some(option), isAnswering := true, showFeedback := true);
      if option == correct then
        marked.(score := p.score + Points(|p.revealed|), feedback := Right(Points(|p.revealed|), |p.revealed|))
      else marked.(feedback := Wrong(correct))
  }

  function ClickedStore(p: Play, option: string, store: GameStore.GameState): (s: GameStore.GameState)
    requires !p.isAnswering ==> HasCurrent(p)
    ensures p.isAnswering ==> s == store
    ensures !p.isAnswering && option == p.questions[p.currentQuestionIndex].correct ==> s == GameStore.AnswerCorrect(store)
    ensures !p.isAnswering && option != p.questions[p.currentQuestionIndex].correct ==> s == GameStore.AnswerIncorrect(store)
  {
    if p.isAnswering then store
    else if option == p.questions[p.currentQuestionIndex].correct then GameStore.AnswerCorrect(store)
    else GameStore.AnswerIncorrect(store)
  }

  /** A click earns between 1 and 10 points when right and none when wrong,
      and only the first click of a question counts. */
  lemma ClickEarnings(p: Play, option: string, later: string)
    requires PlayOk(p) && HasCurrent(p) && !p.isAnswering
    ensures var gained := Clicked(p, option).score - p.score;
      (option == p.questions[p.currentQuestionIndex].correct ==> 1 <= gained <= 10)
      && (option != p.questions[p.currentQuestionIndex].correct ==> gained == 0)
    ensures Clicked(Clicked(p, option), later) == Clicked(p, option)
  {
  }

  /** `nextQuestion` when a next question exists: the cover closes again. */
  function Advanced(p: Play): (r: Play)
    requires PlayOk(p) && p.currentQuestionIndex + 1 < |p.questions|
    ensures PlayOk(r) && r.questions == p.questions && r.score == p.score && HasCurrent(r)
    ensures r.currentQuestionIndex == p.currentQuestionIndex + 1
    ensures !r.isAnswering && r.revealed == {} && r.selectedOption == None && !r.showFeedback
    ensures r.feedback == NoFeedback
  {
    p.(currentQuestionIndex := p.currentQuestionIndex + 1, isAnswering := false, revealed := {},
       selectedOption := None, showFeedback := false, feedback := NoFeedback)
  }

  /** The look of an option (`getOptionClass`). */
  datatype Look = Plain | Picked | Green | Red

  function OptionLook(showFeedback: bool, selected: Option<string>, option: string, correct: string): (l: Look)
    ensures !showFeedback ==> (l == Picked <==> selected == Some(option)) && (l != Picked ==> l == Plain)
    ensures showFeedback && option == correct ==> l == Green
    ensures showFeedback && option != correct ==> (l == Red <==> selected == Some(option)) && (l != Red ==> l == Plain)
  {
    if !showFeedback && selected == Some(option) then Picked
    else if showFeedback && option == correct then Green
    else if showFeedback && selected == Some(option) && option != correct then Red
    else Plain
  }

  /** Once answered, exactly one of a question's options is green, and a red
      one is there only when the chosen option was wrong. */
  lemma OneGreen(q: Question, words: seq<string>, selected: Option<string>)
    requires PictureChoiceEn.OptionsFor(q.options, q.correct, words)
    ensures exists i :: 0 <= i < |q.options| && OptionLook(true, selected, q.options[i], q.correct) == Green
    ensures forall i, j :: (0 <= i < |q.options| && 0 <= j < |q.options|
                            && OptionLook(true, selected, q.options[i], q.correct) == Green
                            && OptionLook(true, selected, q.options[j], q.correct) == Green) ==> i == j
    ensures forall i :: 0 <= i < |q.options| && OptionLook(true, selected, q.options[i], q.correct) == Red
                        ==> selected == Some(q.options[i]) && q.options[i] != q.correct
  {
    PictureChoiceEn.OccursOnce(q.options, q.correct);
  }

  ghost predicate QuestionsFor(qs: seq<Question>, vocab: seq<VocabItem>) {
    forall q :: q in qs ==> PictureChoiceEn.OptionsFor(q.options, q.correct, PictureChoiceEn.Words(vocab))
  }

  method NewGame(vocab: seq<VocabItem>, oldStore: GameStore.GameState)
    returns (p: Play, store: GameStore.GameState)
    ensures PlayOk(p) && p == StartPlay(p.questions) && |p.questions| == |vocab|
    ensures QuestionsFor(p.questions, vocab)
    ensures multiset(Shuffle.MapSeq(PictureChoiceEn.CorrectOf, p.questions)) == multiset(PictureChoiceEn.Words(vocab))
    ensures store == GameStore.SetTotalQuestions(GameStore.ResetGame(oldStore), |vocab|)
  {
    var newQuestions := CreateQuestions(vocab);
    p := StartPlay(newQuestions);
    store := GameStore.SetTotalQuestions(GameStore.ResetGame(oldStore), |vocab|);
  }

  class ImageRevealGame {
    const vocabWords: seq<VocabItem>
    var play: Play
    var isGameStarted: bool
    var isGameOver: bool
    var timer: nat
    var timerRunning: bool
    var store: GameStore.GameState

    ghost predicate Valid()
      reads this
    {
      PlayOk(play) && QuestionsFor(play.questions, vocabWords)
    }

    constructor(vocabData: seq<VocabItem>, initialStore: GameStore.GameState)
      ensures Valid() && vocabWords == vocabData && play == NoPlay
      ensures !isGameStarted && !isGameOver && timer == 0 && !timerRunning
      ensures store == GameStore.ResetGame(GameStore.SetTotalQuestions(initialStore, |vocabData|))
    {
      vocabWords := vocabData;
      play := NoPlay;
      isGameStarted := false;
      isGameOver := false;
      timer := 0;
      timerRunning := false;
      store := GameStore.ResetGame(GameStore.SetTotalQuestions(initialStore, |vocabData|));
    }

    method Tick()
      requires timerRunning
      modifies this
      ensures timer == old(timer) + 1 && timerRunning && play == old(play) && store == old(store)
      ensures isGameStarted == old(isGameStarted) && isGameOver == old(isGameOver)
    {
      timer := timer + 1;
    }

    method StartGame()
      modifies this
      ensures Valid() && isGameStarted && !isGameOver && timer == 0 && timerRunning
      ensures play == StartPlay(play.questions) && |play.questions| == |vocabWords|
      ensures multiset(Shuffle.MapSeq(PictureChoiceEn.CorrectOf, play.questions)) == multiset(PictureChoiceEn.Words(vocabWords))
      ensures store == GameStore.SetTotalQuestions(GameStore.ResetGame(old(store)), |vocabWords|)
    {
      play, store := NewGame(vocabWords, store);
      isGameStarted := true;
      isGameOver := false;
      timer := 0;
      timerRunning := true;
    }

    /** `restartGame`: back to the start screen; the clock stops but keeps
        its reading. */
    method RestartGame()
      modifies this
      ensures Valid() && play == NoPlay && !isGameStarted && !isGameOver
      ensures !timerRunning && timer == old(timer) && store == GameStore.ResetGame(old(store))
    {
      timerRunning := false;
      isGameStarted := false;
      isGameOver := false;
      play := NoPlay;
      store := GameStore.ResetGame(store);
    }

    method TileClick(tileId: string)
      requires Valid()
      modifies this
      ensures Valid() && play == TileClicked(old(play), tileId) && store == old(store)
      ensures timer == old(timer) && timerRunning == old(timerRunning)
      ensures isGameStarted == old(isGameStarted) && isGameOver == old(isGameOver)
    {
      play := TileClicked(play, tileId);
    }

    /** `handleOptionClick`; the move on follows 2 s later as `NextQuestion`. */
    method OptionClick(option: string)
      requires Valid() && (!play.isAnswering ==> HasCurrent(play))
      modifies this
      ensures Valid() && play == Clicked(old(play), option) && store == ClickedStore(old(play), option, old(store))
      ensures timer == old(timer) && timerRunning == old(timerRunning)
      ensures isGameStarted == old(isGameStarted) && isGameOver == old(isGameOver)
    {
      store := ClickedStore(play, option, store);
      play := Clicked(play, option);
    }

    method NextQuestion()
      requires Valid()
      modifies this
      ensures Valid() && store == old(store) && timer == old(timer) && isGameStarted == old(isGameStarted)
      ensures old(play).currentQuestionIndex + 1 < |old(play).questions| ==>
        play == Advanced(old(play)) && isGameOver == old(isGameOver) && timerRunning == old(timerRunning)
      ensures old(play).currentQuestionIndex + 1 >= |old(play).questions| ==>
        play == old(play) && isGameOver && !timerRunning
    {
      if play.currentQuestionIndex + 1 < |play.questions| {
        play := Advanced(play);
      } else {
        isGameOver := true;
        timerRunning := false;
      }
    }

    method CloseResults()
      modifies this
      ensures !isGameOver && isGameStarted == old(isGameStarted) && play == old(play)
      ensures store == old(store) && timer == old(timer) && timerRunning == old(timerRunning)
    {
      isGameOver := false;
    }
  }
}
