/**
 * The shared score store of the games: one record of four counters and five
 * record-to-record actions.
 */
module GameStore {

  datatype GameState = GameState(score: int, totalQuestions: int, correctAnswers: int, incorrectAnswers: int)

  /** The store's initial value, also what `resetGame` writes. */
  const Zero := GameState(0, 0, 0, 0)

  /** `increaseScore(amount)`: only the score moves, by `amount`. */
  function IncreaseScore(s: GameState, amount: int): (r: GameState)
    ensures r.score - s.score == amount
    ensures r.totalQuestions == s.totalQuestions && r.correctAnswers == s.correctAnswers
    ensures r.incorrectAnswers == s.incorrectAnswers
  {
    s.(score := s.score + amount)
  }

  /** `answerCorrect()`: one more correct answer, ten more points. */
  function AnswerCorrect(s: GameState): (r: GameState)
    ensures r.correctAnswers == s.correctAnswers + 1 && r.score == s.score + 10
    ensures r.totalQuestions == s.totalQuestions && r.incorrectAnswers == s.incorrectAnswers
  {
    s.(correctAnswers := s.correctAnswers + 1, score := s.score + 10)
  }

  /** `answerIncorrect()`: one more incorrect answer and nothing else. */
  function AnswerIncorrect(s: GameState): (r: GameState)
    ensures r.incorrectAnswers == s.incorrectAnswers + 1
    ensures r.score == s.score && r.totalQuestions == s.totalQuestions
    ensures r.correctAnswers == s.correctAnswers
  {
    s.(incorrectAnswers := s.incorrectAnswers + 1)
  }

  /** `setTotalQuestions(total)` */
  function SetTotalQuestions(s: GameState, total: int): (r: GameState)
    ensures r.totalQuestions == total
    ensures r.score == s.score && r.correctAnswers == s.correctAnswers
    ensures r.incorrectAnswers == s.incorrectAnswers
  {
    s.(totalQuestions := total)
  }

  /** `resetGame()` */
  function ResetGame(s: GameState): (r: GameState)
    ensures r.score == 0 && r.totalQuestions == 0 && r.correctAnswers == 0 && r.incorrectAnswers == 0
  {
    Zero
  }

  /** One call of a store action. */
  datatype Action = Increase(amount: int) | Correct | Incorrect | SetTotal(total: int) | Reset

  function Apply(s: GameState, a: Action): GameState {
    match a
    case Increase(n) => IncreaseScore(s, n)
    case Correct => AnswerCorrect(s)
    case Incorrect => AnswerIncorrect(s)
    case SetTotal(t) => SetTotalQuestions(s, t)
    case Reset => ResetGame(s)
  }

  /** The store after the actions `acts`, in order, starting from `s`. */
  function Run(s: GameState, acts: seq<Action>): GameState
    decreases |acts|
  {
    if acts == [] then s else Apply(Run(s, acts[..|acts| - 1]), acts[|acts| - 1])
  }

  /** The `increaseScore` amounts since the last `resetGame` in `acts`. */
  function BonusSinceReset(acts: seq<Action>): int
    decreases |acts|
  {
    if acts == [] then 0
    else
      var last := acts[|acts| - 1];
      var before := BonusSinceReset(acts[..|acts| - 1]);
      match last
      case Increase(n) => before + n
      case Reset => 0
      case _ => before
  }

  /** The score always equals ten points per correct answer plus the extra
      points granted with `increaseScore` since the last reset; every
      counter is zero right after a reset. */
  lemma {:induction false} ScoreAccounting(acts: seq<Action>)
    ensures Run(Zero, acts).score == 10 * Run(Zero, acts).correctAnswers + BonusSinceReset(acts)
    decreases |acts|
  {
    if acts != [] {
      ScoreAccounting(acts[..|acts| - 1]);
    }
  }

  /** Counters other than the score only grow between resets. */
  lemma {:induction false} CountersNeverNegative(acts: seq<Action>)
    ensures Run(Zero, acts).correctAnswers >= 0 && Run(Zero, acts).incorrectAnswers >= 0
    decreases |acts|
  {
    if acts != [] {
      CountersNeverNegative(acts[..|acts| - 1]);
    }
  }
}
