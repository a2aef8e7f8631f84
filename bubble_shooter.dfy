/**
 * The Bubble Shooter vocabulary game: a shot drops a bubble into the lowest
 * empty cell of a column and resolves the board; when the shots run out a
 * question is asked, and its answer buys shots back or costs one.
 */
module BubbleShooter {
  import opened Wrappers
  import opened Text
  import opened Answers
  import opened BubbleBoard
  import GameStore

  const InitialShots := 8

  datatype QuestionType = MultipleChoice | Listening | FillBlank | ImageChoice | ImageToVietnamese

  datatype Question = Question(kind: QuestionType, question: string, correctAnswer: string,
                               options: seq<string>, wordToSpeak: Option<string>)

  /** The verdict of `handleSubmitAnswer`: a fill-in question compares both
      sides trimmed and lowered, every other kind the chosen option exactly. */
  function AnswerCorrectFor(q: Question, userAnswer: string, selectedOption: Option<string>): bool {
    if q.kind == FillBlank then TrimLower(userAnswer) == TrimLower(q.correctAnswer)
    else selectedOption == Some(q.correctAnswer)
  }

  /** Padding and letter case of the typed answer do not matter when the
      expected answer is unpadded. */
  lemma FillBlankForgiving(q: Question, pad: string, selectedOption: Option<string>)
    requires q.kind == FillBlank && Unpadded(q.correctAnswer)
    requires forall i :: 0 <= i < |pad| ==> IsSpace(pad[i])
    ensures AnswerCorrectFor(q, pad + q.correctAnswer + pad, selectedOption)
    ensures AnswerCorrectFor(q, pad + ToUpper(q.correctAnswer) + pad, selectedOption)
  {
    TypedMatchesOwnAnswer(q.correctAnswer, pad);
    TrimOfUnpadded(q.correctAnswer);
  }

  /** Since the expected answer is trimmed and lowered too, its normal form
      is accepted whatever padding the expected answer carries. */
  lemma FillBlankNormalForm(q: Question, selectedOption: Option<string>)
    requires q.kind == FillBlank
    ensures AnswerCorrectFor(q, TrimLower(q.correctAnswer), selectedOption)
  {
    TrimLowerIdempotent(q.correctAnswer);
  }

  /** A choice question needs that very option, and fails without one. */
  lemma ChoiceNeedsOption(q: Question, userAnswer: string, option: string)
    requires q.kind != FillBlank
    ensures AnswerCorrectFor(q, userAnswer, Some(option)) <==> option == q.correctAnswer
    ensures !AnswerCorrectFor(q, userAnswer, None)
  {
  }

  /** Shots after an answer: three more for a right one, one fewer but never
      below zero for a wrong one. */
  function ShotsAfterAnswer(shots: int, correct: bool): (s: int)
    requires shots >= 0
    ensures s >= 0
    ensures correct ==> s == shots + 3
    ensures !correct && shots > 0 ==> s == shots - 1
    ensures !correct && shots == 0 ==> s == 0
  {
    if correct then shots + 3 else if shots - 1 > 0 then shots - 1 else 0
  }

  /** The row a shot into column `col` lands in: scanning up from the
      bottom, the first empty cell; -1 when the column is full. */
  method TargetRow(b: Board, col: int) returns (row: int)
    requires Sized(b) && 0 <= col < Cols
    ensures -1 <= row < Rows
    ensures row >= 0 ==> b[row][col].None?
    ensures forall r :: row < r < Rows ==> b[r][col].Some?
  {
    row := Rows - 1;
    while row >= 0
      invariant -1 <= row < Rows
      invariant forall r :: row < r < Rows ==> b[r][col].Some?
    {
      if b[row][col].None? {
        return;
      }
      row := row - 1;
    }
  }

  /** The outcome of a shot. */
  datatype Shot = Rejected | Fired(row: int, placed: Board, resolved: Resolved)

  /** Some bubble in the top row. */
  predicate Overflow(b: Board)
    requires Sized(b)
  {
    exists c :: 0 <= c < Cols && b[0][c].Some?
  }

  /** What a shot of colour `color` into column `col` promises: a full
      column is refused; otherwise the bubble goes into the lowest empty cell,
      below which the column is full, and the board is resolved, ending
      well formed without a group of three and scored fifteen per bubble
      cleared plus five per pass number. */
  ghost predicate ShotFacts(b: Board, col: int, color: int, score: int, s: Shot)
    requires WellFormed(b) && 0 <= col < Cols
  {
    (s.Rejected? <==> forall r :: 0 <= r < Rows ==> b[r][col].Some?)
    && (s.Fired? ==>
          0 <= s.row < Rows && b[s.row][col].None? && (forall r :: s.row < r < Rows ==> b[r][col].Some?)
          && s.placed == SetCell(b, s.row, col, Some(Bubble(s.row, col, color)))
          && WellFormed(s.resolved.board) && ClearSet(s.resolved.board) == {}
          && s.resolved.score == score + 15 * s.resolved.totalCleared + 5 * Triangle(s.resolved.chain)
          && s.resolved.totalCleared >= 3 * s.resolved.chain
          && (s.resolved.chain == 0 ==> s.resolved.board == s.placed))
  }

  method Shoot(b: Board, col: int, color: int, score: int) returns (s: Shot)
    requires WellFormed(b) && 0 <= col < Cols && 0 <= color < ColorCount
    ensures ShotFacts(b, col, color, score, s)
  {
    var targetRow := TargetRow(b, col);
    if targetRow == -1 {
      return Rejected;
    }
    var newBoard := SetCell(b, targetRow, col, Some(Bubble(targetRow, col, color)));
    var r := ResolveBoard(newBoard, score);
    s := Fired(targetRow, newBoard, r);
  }

  /** The board side of the game state. */
  datatype Play = Play(
    board: Board,
    activeBubble: Option<int>,
    nextBubble: Option<int>,
    shotsLeft: int,
    score: int,
    /** The number of passes of the last shot's chain. */
    comboCount: nat,
    isGameOver: bool)

  predicate ColorOk(c: Option<int>) {
    c.Some? ==> 0 <= c.value < ColorCount
  }

  /** Shots never go negative, a started board is well formed and queued
      bubbles have valid colours. */
  predicate PlayOk(p: Play, started: bool) {
    p.shotsLeft >= 0 && (started ==> WellFormed(p.board)) && ColorOk(p.activeBubble) && ColorOk(p.nextBubble)
  }

  /** The state before the first game. */
  const Unstarted := Play([], None, None, InitialShots, 0, 0, false)

  /** `startGame`'s board and counters: rows 0-3 full, two queued bubbles,
      eight shots, score and combo 0. */
  function StartPlay(colors: seq<seq<int>>, active: int, next: int): (p: Play)
    requires Palette(colors) && 0 <= active < ColorCount && 0 <= next < ColorCount
    ensures PlayOk(p, true) && !p.isGameOver
    ensures forall r, c :: 0 <= r < Rows && 0 <= c < Cols ==> (p.board[r][c].Some? <==> r < InitialFilledRows)
    ensures p.activeBubble == Some(active) && p.nextBubble == Some(next)
    ensures p.shotsLeft == InitialShots && p.score == 0 && p.comboCount == 0
  {
    Play(InitialBoard(colors), Some(active), Some(next), InitialShots, 0, 0, false)
  }

  /** A state a shot can be fired from. */
  predicate ReadyToShoot(p: Play) {
    PlayOk(p, true) && p.activeBubble.Some? && p.shotsLeft > 0 && !p.isGameOver
  }

  /** `r` is the state after the shot `shot` into column `col` from `p`: the
      shot is the one `ShotFacts` describes; a refused shot changes nothing;
      a fired one spends one shot, keeps the resolved board and score, sets
      the combo to the number of passes, moves the next bubble up behind a
      newly drawn one, and ends the game when a bubble sits in the top row
      or the last shot is spent with no questions to ask. */
  ghost predicate ShotTaken(p: Play, col: int, noQuestions: bool, shot: Shot, r: Play)
    requires ReadyToShoot(p) && 0 <= col < Cols
  {
    ShotFacts(p.board, col, p.activeBubble.value, p.score, shot)
    && (shot.Rejected? ==> r == p)
    && (shot.Fired? ==>
          r == Play(shot.resolved.board, p.nextBubble, r.nextBubble, p.shotsLeft - 1,
                    shot.resolved.score, shot.resolved.chain,
                    Overflow(shot.resolved.board) || (p.shotsLeft - 1 == 0 && noQuestions))
          && r.nextBubble.Some?)
  }

  /** The shot of `handleShoot` once its guards have passed; `next` is the
      colour drawn for the new next bubble. */
  method Fire(p: Play, col: int, next: int, noQuestions: bool) returns (r: Play, shot: Shot)
    requires ReadyToShoot(p) && 0 <= col < Cols && 0 <= next < ColorCount
    ensures ShotTaken(p, col, noQuestions, shot, r)
    ensures PlayOk(r, true)
  {
    shot := Shoot(p.board, col, p.activeBubble.value, p.score);
    if shot.Rejected? {
      return p, shot;
    }
    var staleShots := p.shotsLeft;
    var shotsLeft := if p.shotsLeft - 1 > 0 then p.shotsLeft - 1 else 0;
    var board := shot.resolved.board;
    var isGameOver := false;
    if Overflow(board) {
      isGameOver := true;
    } else if staleShots - 1 <= 0 && noQuestions {
      isGameOver := true;
    }
    r := Play(board, p.nextBubble, Some(next), shotsLeft, shot.resolved.score, shot.resolved.chain, isGameOver);
  }

  /** The question panel. */
  datatype Quiz = Quiz(
    showQuestion: bool,
    currentQuestion: Option<Question>,
    userAnswer: string,
    selectedOption: Option<string>,
    questionsAnswered: int,
    isSubmitting: bool,
    /** The 1500 ms continuation of the last answer, not yet run, with the
        shot count its closure captured when the answer was submitted. */
    pending: Option<int>)

  const NoQuiz := Quiz(false, None, "", None, 0, false, None)

  /** The questions shown come from the list, and a pending continuation
      implies a question was shown, so the list is not empty. */
  ghost predicate QuizOk(q: Quiz, questions: seq<Question>) {
    q.questionsAnswered >= 0
    && (q.currentQuestion.Some? ==> q.currentQuestion.value in questions)
    && (q.pending.Some? ==> |questions| > 0)
  }

  /** What an answer changes: the shots and combo, the store and the panel. */
  datatype Answering = Answering(play: Play, store: GameStore.GameState, quiz: Quiz)

  /** An answer is taken only while a question is shown and none is being
      submitted. */
  predicate Submittable(q: Quiz) {
    q.currentQuestion.Some? && !q.isSubmitting
  }

  function Verdict(q: Quiz): bool
    requires q.currentQuestion.Some?
  {
    AnswerCorrectFor(q.currentQuestion.value, q.userAnswer, q.selectedOption)
  }

  /** `handleSubmitAnswer`: a right answer buys three shots, raises the
      combo to at least 1 and counts as correct in the store; a wrong one
      costs a shot, never below zero, and counts as incorrect.  Either way
      the answer is counted, the panel locks and the continuation is due,
      carrying the shot count from before the answer. */
  function Submit(a: Answering): (r: Answering)
    requires a.play.shotsLeft >= 0
    ensures !Submittable(a.quiz) ==> r == a
    ensures Submittable(a.quiz) ==>
      r.play == a.play.(shotsLeft := r.play.shotsLeft, comboCount := r.play.comboCount)
      && r.quiz == a.quiz.(questionsAnswered := a.quiz.questionsAnswered + 1, isSubmitting := true,
                           pending := Some(a.play.shotsLeft))
    ensures Submittable(a.quiz) && Verdict(a.quiz) ==>
      r.play.shotsLeft == a.play.shotsLeft + 3 && r.play.comboCount >= 1
      && r.play.comboCount >= a.play.comboCount
      && r.store == GameStore.AnswerCorrect(a.store)
    ensures Submittable(a.quiz) && !Verdict(a.quiz) ==>
      r.play.shotsLeft == (if a.play.shotsLeft > 0 then a.play.shotsLeft - 1 else 0)
      && r.play.comboCount == a.play.comboCount
      && r.store == GameStore.AnswerIncorrect(a.store)
  {
    if !Submittable(a.quiz) then a
    else
      var correct := Verdict(a.quiz);
      var quiz := a.quiz.(isSubmitting := true, questionsAnswered := a.quiz.questionsAnswered + 1,
                          pending := Some(a.play.shotsLeft));
      if correct then
        Answering(a.play.(shotsLeft := a.play.shotsLeft + 3,
                          comboCount := if a.play.comboCount > 1 then a.play.comboCount else 1),
                  GameStore.AnswerCorrect(a.store), quiz)
      else
        Answering(a.play.(shotsLeft := if a.play.shotsLeft - 1 > 0 then a.play.shotsLeft - 1 else 0),
                  GameStore.AnswerIncorrect(a.store), quiz)
  }

  /** A second submission before the continuation runs is ignored. */
  lemma SubmitOnce(a: Answering)
    requires a.play.shotsLeft >= 0
    ensures Submit(Submit(a)) == Submit(a)
  {
  }

  /** After the answer the shot count has moved by +3 or by -1 (down to
      zero), and the store's answer counts by exactly one. */
  lemma SubmitCounts(a: Answering)
    requires a.play.shotsLeft >= 0 && Submittable(a.quiz)
    ensures var r := Submit(a);
      r.play.shotsLeft >= 0 && ShotsAfterAnswer(a.play.shotsLeft, Verdict(a.quiz)) == r.play.shotsLeft
      && r.store.correctAnswers + r.store.incorrectAnswers
         == a.store.correctAnswers + a.store.incorrectAnswers + 1
  {
  }

  class BubbleShooterGame {
    const questions: seq<Question>
    var isGameStarted: bool
    var play: Play
    var quiz: Quiz
    /** The shared score store. */
    var store: GameStore.GameState
    /** The outcome of the last call of `handleShoot`. */
    ghost var lastShot: Shot

    ghost predicate Valid()
      reads this
    {
      PlayOk(play, isGameStarted) && QuizOk(quiz, questions)
    }

    constructor(questionsData: seq<Question>, initialStore: GameStore.GameState)
      ensures Valid() && questions == questionsData && store == initialStore
      ensures !isGameStarted && play == Unstarted && quiz == NoQuiz
    {
      questions := questionsData;
      isGameStarted := false;
      play := Unstarted;
      quiz := NoQuiz;
      store := initialStore;
      lastShot := Rejected;
    }

    /** `startGame`: the first board, two queued bubbles, eight shots, score
        and combo 0, the store reset and the answer count cleared. */
    method StartGame()
      requires Valid()
      modifies this
      ensures Valid() && isGameStarted && !play.isGameOver
      ensures forall r, c :: 0 <= r < Rows && 0 <= c < Cols ==> (play.board[r][c].Some? <==> r < InitialFilledRows)
      ensures play.activeBubble.Some? && play.nextBubble.Some?
      ensures play.shotsLeft == InitialShots && play.score == 0 && play.comboCount == 0
      ensures store == GameStore.Zero
      ensures quiz == old(quiz).(questionsAnswered := 0, showQuestion := false)
    {
      var colors := RandomPalette();
      var active := RandomColor();
      var next := RandomColor();
      play := StartPlay(colors, active, next);
      quiz := quiz.(questionsAnswered := 0, showQuestion := false);
      isGameStarted := true;
      store := GameStore.ResetGame(store);
    }

    /** `prepareNextBubble`: keep the active bubble, or draw one, and draw
        the next. */
    method PrepareNextBubble()
      requires Valid()
      modifies this
      ensures Valid() && play.activeBubble.Some? && play.nextBubble.Some?
      ensures old(play).activeBubble.Some? ==> play.activeBubble == old(play).activeBubble
      ensures play == old(play).(activeBubble := play.activeBubble, nextBubble := play.nextBubble)
      ensures quiz == old(quiz) && store == old(store) && isGameStarted == old(isGameStarted)
    {
      if play.activeBubble.None? {
        var active := RandomColor();
        play := play.(activeBubble := Some(active));
      }
      var next := RandomColor();
      play := play.(nextBubble := Some(next));
    }

    /** `handleShoot`, with the chain's pauses run without interruption:
        nothing happens before the game, after it or without shots; without
        an active bubble one is prepared; otherwise the shot of `Fire` is
        taken. */
    method HandleShoot(col: int)
      requires Valid() && 0 <= col < Cols
      modifies this
      ensures Valid() && quiz == old(quiz) && store == old(store) && isGameStarted == old(isGameStarted)
      ensures !isGameStarted || old(play).isGameOver || old(play).shotsLeft <= 0 ==> play == old(play)
      ensures isGameStarted && !old(play).isGameOver && old(play).shotsLeft > 0 && old(play).activeBubble.None? ==>
        play == old(play).(activeBubble := play.activeBubble, nextBubble := play.nextBubble)
        && play.activeBubble.Some?
      ensures isGameStarted && !old(play).isGameOver && old(play).shotsLeft > 0 && old(play).activeBubble.Some? ==>
        ShotTaken(old(play), col, |questions| == 0, lastShot, play)
    {
      lastShot := Rejected;
      if !isGameStarted || play.isGameOver {
        return;
      }
      if play.shotsLeft <= 0 {
        return;
      }
      if play.activeBubble.None? {
        PrepareNextBubble();
        return;
      }
      var next := RandomColor();
      var r, shot := Fire(play, col, next, |questions| == 0);
      play, lastShot := r, shot;
    }

    /** `getRandomQuestion`: any question of the list. */
    method RandomQuestion() returns (q: Question)
      requires |questions| > 0
      ensures q in questions
    {
      var i :| 0 <= i < |questions|;
      q := questions[i];
    }

    /** `openQuestionModal`.  Like the source, which reads a field of
        `undefined` otherwise, it needs a non-empty question list. */
    method OpenQuestionModal()
      requires Valid() && |questions| > 0
      modifies this
      ensures Valid() && quiz.showQuestion && quiz.currentQuestion.Some? && quiz.currentQuestion.value in questions
      ensures quiz == old(quiz).(showQuestion := true, currentQuestion := quiz.currentQuestion,
                                 userAnswer := "", selectedOption := None, isSubmitting := false)
      ensures play == old(play) && store == old(store) && isGameStarted == old(isGameStarted)
    {
      var q := RandomQuestion();
      quiz := quiz.(showQuestion := true, currentQuestion := Some(q), userAnswer := "",
                    selectedOption := None, isSubmitting := false);
    }

    /** The effect that asks a question once a running game is out of shots. */
    method QuestionEffect()
      requires Valid()
      modifies this
      ensures Valid()
      ensures (isGameStarted && !play.isGameOver && play.shotsLeft == 0 && !old(quiz).showQuestion && |questions| > 0)
        <==> (!old(quiz).showQuestion && quiz.showQuestion)
      ensures !quiz.showQuestion ==> quiz == old(quiz)
      ensures play == old(play) && store == old(store) && isGameStarted == old(isGameStarted)
    {
      if isGameStarted && !play.isGameOver && play.shotsLeft == 0 && !quiz.showQuestion && |questions| > 0 {
        OpenQuestionModal();
      }
    }

    method TypeAnswer(text: string)
      modifies this
      ensures quiz == old(quiz).(userAnswer := text)
      ensures play == old(play) && store == old(store) && isGameStarted == old(isGameStarted)
    {
      quiz := quiz.(userAnswer := text);
    }

    method ChooseOption(option: string)
      modifies this
      ensures quiz == old(quiz).(selectedOption := Some(option))
      ensures play == old(play) && store == old(store) && isGameStarted == old(isGameStarted)
    {
      quiz := quiz.(selectedOption := Some(option));
    }

    /** `handleSubmitAnswer`, as `Submit` describes it. */
    method HandleSubmitAnswer()
      requires Valid()
      modifies this
      ensures Valid() && isGameStarted == old(isGameStarted)
      ensures Answering(play, store, quiz) == Submit(old(Answering(play, store, quiz)))
    {
      var r := Submit(Answering(play, store, quiz));
      play, store, quiz := r.play, r.store, r.quiz;
    }

    /** The 1500 ms continuation: the panel closes, and it reopens with a new
        question when the shot count captured at submission was zero. */
    method AnswerTimeout()
      requires Valid() && quiz.pending.Some?
      modifies this
      ensures Valid() && quiz.pending.None? && !quiz.isSubmitting
      ensures old(quiz).pending.value <= 0 ==>
        quiz.showQuestion && quiz.currentQuestion.Some? && quiz.currentQuestion.value in questions
        && quiz.userAnswer == "" && quiz.selectedOption.None?
      ensures old(quiz).pending.value > 0 ==>
        quiz == old(quiz).(showQuestion := false, currentQuestion := None, isSubmitting := false, pending := None)
      ensures quiz.questionsAnswered == old(quiz).questionsAnswered
      ensures play == old(play) && store == old(store) && isGameStarted == old(isGameStarted)
    {
      var captured := quiz.pending.value;
      quiz := quiz.(showQuestion := false, currentQuestion := None, isSubmitting := false, pending := None);
      if captured <= 0 {
        OpenQuestionModal();
      }
    }
  }

  /** `getRandomColor`: any of the six. */
  method RandomColor() returns (c: int)
    ensures 0 <= c < ColorCount
  {
    c :| 0 <= c < ColorCount;
  }

  /** A colour drawn for each cell of the board. */
  method RandomPalette() returns (colors: seq<seq<int>>)
    ensures Palette(colors)
  {
    colors := [];
    while |colors| < Rows
      invariant |colors| <= Rows
      invariant forall r :: 0 <= r < |colors| ==>
        |colors[r]| == Cols && forall c :: 0 <= c < Cols ==> 0 <= colors[r][c] < ColorCount
    {
      var row: seq<int> := [];
      while |row| < Cols
        invariant |row| <= Cols
        invariant forall c :: 0 <= c < |row| ==> 0 <= row[c] < ColorCount
      {
        var color := RandomColor();
        row := row + [color];
      }
      colors := colors + [row];
    }
  }

  /** A right answer given with no shots left buys three shots, yet its
      continuation still opens another question, because it reads the shot
      count captured before the answer. */
  method RightAnswerAtZeroAsksAgain(game: BubbleShooterGame)
    requires game.Valid() && game.play.shotsLeft == 0 && Submittable(game.quiz) && Verdict(game.quiz)
    modifies game
    ensures game.play.shotsLeft == 3 && game.quiz.showQuestion && game.quiz.currentQuestion.Some?
  {
    game.HandleSubmitAnswer();
    game.AnswerTimeout();
  }
}
