/**
 * The unjumble game: each example sentence is cut into words, the words are
 * shuffled into a bank, and the player drags them, one at a time, between
 * the bank and the answer line.  The answer is the answer words joined by
 * single spaces, compared with the sentence ignoring letter case.
 */
module Unjumble {
  import opened Wrappers
  import opened Text
  import Shuffle
  import GameStore

  // ---------------------------------------------------------------------
  // Words of a sentence
  // ---------------------------------------------------------------------

  /** The length of the run of non-space characters that starts `s`. */
  function WordLen(s: string): (n: nat)
    ensures n <= |s| && NoSpace(s[..n])
    ensures n < |s| ==> IsSpace(s[n])
  {
    if s == [] || IsSpace(s[0]) then 0
    else
      var m := WordLen(s[1..]);
      assert s[..m + 1] == [s[0]] + s[1..][..m];
      m + 1
  }

  /** `sentence.split(/\s+/).filter(Boolean)`: the maximal runs of
      non-space characters, in order. */
  function Tokenize(s: string): (r: seq<string>)
    ensures forall k :: 0 <= k < |r| ==> r[k] != "" && NoSpace(r[k])
    decreases |s|
  {
    if s == [] then []
    else if IsSpace(s[0]) then Tokenize(s[1..])
    else var n := WordLen(s); [s[..n]] + Tokenize(s[n..])
  }

  /** Words fit to be a token: not empty and free of white space. */
  predicate Words(ts: seq<string>) {
    forall k :: 0 <= k < |ts| ==> ts[k] != "" && NoSpace(ts[k])
  }

  lemma {:induction false} WordLenOf(w: string, rest: string)
    requires NoSpace(w) && (rest == [] || IsSpace(rest[0]))
    ensures WordLen(w + rest) == |w|
    decreases |w|
  {
    if w != [] {
      assert (w + rest)[1..] == w[1..] + rest;
      WordLenOf(w[1..], rest);
    }
  }

  /** A word followed by a space or by nothing is the first token. */
  lemma TokenizeCons(w: string, rest: string)
    requires w != "" && NoSpace(w) && (rest == [] || IsSpace(rest[0]))
    ensures Tokenize(w + rest) == [w] + Tokenize(rest)
  {
    WordLenOf(w, rest);
    assert (w + rest)[..|w|] == w && (w + rest)[|w|..] == rest;
  }

  /** Cutting words joined by single spaces gives the words back. */
  lemma {:induction false} TokenizeJoin(ts: seq<string>)
    requires Words(ts)
    ensures Tokenize(Join(ts, " ")) == ts
  {
    if |ts| == 1 {
      TokenizeCons(ts[0], []);
      assert ts[0] + [] == ts[0];
    } else if |ts| > 1 {
      var rest := Join(ts[1..], " ");
      TokenizeJoin(ts[1..]);
      assert (" " + rest)[1..] == rest;
      assert ts[0] + " " + rest == ts[0] + (" " + rest);
      TokenizeCons(ts[0], " " + rest);
    }
  }

  /** Lowering every word. */
  function LowerAll(ts: seq<string>): (r: seq<string>)
    ensures |r| == |ts| && forall k :: 0 <= k < |ts| ==> r[k] == ToLower(ts[k])
  {
    if ts == [] then [] else [ToLower(ts[0])] + LowerAll(ts[1..])
  }

  lemma LowerWords(ts: seq<string>)
    requires Words(ts)
    ensures Words(LowerAll(ts))
  {
    forall k, i | 0 <= k < |ts| && 0 <= i < |ts[k]|
      ensures !IsSpace(ToLower(ts[k])[i])
    {
      LowerCharSpace(ts[k][i]);
    }
  }

  /** Lowering the joined words lowers each word. */
  lemma {:induction false} LowerJoin(ts: seq<string>)
    ensures ToLower(Join(ts, " ")) == Join(LowerAll(ts), " ")
  {
    if |ts| > 1 {
      LowerJoin(ts[1..]);
      ToLowerAppend(ts[0] + " ", Join(ts[1..], " "));
      ToLowerAppend(ts[0], " ");
      assert LowerAll(ts)[1..] == LowerAll(ts[1..]);
    }
  }

  /** The verdict of `submitAnswer`: the answer words and the sentence's
      words, each joined by single spaces, are equal ignoring case. */
  predicate AnswerRight(answer: seq<string>, english: seq<string>) {
    ToLower(Join(answer, " ")) == ToLower(Join(english, " "))
  }

  /** For real words the verdict compares word by word: the answer is right
      exactly when it has the sentence's words, in order, up to case. */
  lemma RightIffSameWords(answer: seq<string>, english: seq<string>)
    requires Words(answer) && Words(english)
    ensures AnswerRight(answer, english) <==> LowerAll(answer) == LowerAll(english)
  {
    LowerJoin(answer);
    LowerJoin(english);
    LowerWords(answer);
    LowerWords(english);
    if AnswerRight(answer, english) {
      TokenizeJoin(LowerAll(answer));
      TokenizeJoin(LowerAll(english));
    }
  }

  // ---------------------------------------------------------------------
  // Questions
  // ---------------------------------------------------------------------

  datatype VocabItem = VocabItem(word: string, vietnameseMeaning: string,
                                 exampleSentenceEn: Option<string>, exampleSentenceVi: Option<string>)

  datatype Question = Question(vietnamese: string, englishTokens: seq<string>, scrambledTokens: seq<string>)

  /** `word.exampleSentenceEn` is truthy: present and not empty. */
  predicate HasSentence(v: VocabItem) {
    v.exampleSentenceEn.Some? && v.exampleSentenceEn.value != ""
  }

  /** `exampleSentenceVi || vietnameseMeaning` */
  function Prompt(v: VocabItem): string {
    if v.exampleSentenceVi.Some? && v.exampleSentenceVi.value != "" then v.exampleSentenceVi.value
    else v.vietnameseMeaning
  }

  /** The items that have an example sentence, in order. */
  function WithSentence(words: seq<VocabItem>): (r: seq<VocabItem>)
    ensures |r| <= |words|
    ensures forall v :: v in r ==> v in words && HasSentence(v)
  {
    if words == [] then []
    else if HasSentence(words[0]) then [words[0]] + WithSentence(words[1..])
    else WithSentence(words[1..])
  }

  /** What a question made from `v` holds. */
  ghost predicate QuestionOf(q: Question, v: VocabItem) {
    HasSentence(v)
    && q.vietnamese == Prompt(v)
    && q.englishTokens == Tokenize(Trim(v.exampleSentenceEn.value))
    && multiset(q.scrambledTokens) == multiset(q.englishTokens)
  }

  /** Every question of `qs` is made from some item of `words`. */
  ghost predicate MadeFrom(qs: seq<Question>, words: seq<VocabItem>) {
    forall q :: q in qs ==> exists v :: v in words && QuestionOf(q, v)
  }

  /** A question made from an item of the list keeps the list made. */
  lemma MadeFromSnoc(list: seq<Question>, words: seq<VocabItem>, i: nat, q: Question)
    requires MadeFrom(list, words) && i < |words| && QuestionOf(q, words[i])
    ensures MadeFrom(list + [q], words)
  {
  }

  /** The question for one item with a sentence: its prompt, the trimmed
      sentence's words and a shuffle of them as bank. */
  method MakeQuestion(v: VocabItem) returns (q: Question)
    requires HasSentence(v)
    ensures QuestionOf(q, v)
  {
    var tokens := Tokenize(Trim(v.exampleSentenceEn.value));
    var scrambled := Shuffle.Shuffle(tokens);
    q := Question(Prompt(v), tokens, scrambled);
  }

  /** A shuffle of made questions holds made questions only. */
  lemma MadeFromShuffled(list: seq<Question>, qs: seq<Question>, words: seq<VocabItem>)
    requires MadeFrom(list, words) && multiset(qs) == multiset(list)
    ensures MadeFrom(qs, words)
  {
    forall q | q in qs
      ensures q in list
    {
      assert q in multiset(qs);
    }
  }

  /** The items with a sentence among the first `i + 1`. */
  lemma WithSentenceNext(words: seq<VocabItem>, i: nat, before: nat, after: nat)
    requires i < |words| && before == |WithSentence(words[..i])|
    requires after == before + (if HasSentence(words[i]) then 1 else 0)
    ensures after == |WithSentence(words[..i + 1])|
  {
    assert words[..i + 1] == words[..i] + [words[i]];
    FilterAppend(words[..i], words[i]);
  }

  lemma WithSentenceAll(words: seq<VocabItem>)
    ensures WithSentence(words[..|words|]) == WithSentence(words)
  {
    assert words[..|words|] == words;
  }

  /** `createQuestions`: one question per item with an example sentence,
      in random order; its words are the trimmed sentence cut at white
      space, and its bank is a shuffle of them. */
  method CreateQuestions(words: seq<VocabItem>) returns (qs: seq<Question>)
    ensures |qs| == |WithSentence(words)|
    ensures forall q :: q in qs ==> exists v :: v in words && QuestionOf(q, v)
  {
    var list: seq<Question> := [];
    var i := 0;
    while i < |words|
      invariant 0 <= i <= |words|
      invariant |list| == |WithSentence(words[..i])| && MadeFrom(list, words)
    {
      ghost var before := |list|;
      if HasSentence(words[i]) {
        var q := MakeQuestion(words[i]);
        MadeFromSnoc(list, words, i, q);
        list := list + [q];
      }
      WithSentenceNext(words, i, before, |list|);
      i := i + 1;
    }
    WithSentenceAll(words);
    qs := Shuffle.Shuffle(list);
    MadeFromShuffled(list, qs, words);
  }

  lemma {:induction false} FilterAppend(words: seq<VocabItem>, v: VocabItem)
    ensures |WithSentence(words + [v])| == |WithSentence(words)| + (if HasSentence(v) then 1 else 0)
    decreases |words|
  {
    if words == [] {
      assert [v][1..] == [];
    } else {
      assert (words + [v])[1..] == words[1..] + [v];
      FilterAppend(words[1..], v);
    }
  }

  // ---------------------------------------------------------------------
  // Dragging words
  // ---------------------------------------------------------------------

  /** The bank, the answer line and the submitted flag. */
  datatype Round = Round(bank: seq<string>, answer: seq<string>, isAnswering: bool)

  /** What `handleDragStart` records: nothing while answering (the words
      are not draggable then), else the word and where it came from. */
  function DragData(isAnswering: bool, token: string, fromBank: bool): (d: (string, bool))
    ensures isAnswering ==> d == ("", false)
    ensures !isAnswering ==> d == (token, fromBank)
  {
    if isAnswering then ("", false) else (token, fromBank)
  }

  /** `handleDrop` as written: ignored while answering, without a word, or
      onto the side it came from; otherwise every copy of the word leaves
      its side and one copy joins the end of the other. */
  function Dropped(r: Round, token: string, fromBank: bool, toBank: bool): (s: Round)
    ensures r.isAnswering || token == "" || fromBank == toBank ==> s == r
    ensures !r.isAnswering && token != "" && fromBank && !toBank ==>
      s == r.(bank := Without(r.bank, token), answer := r.answer + [token])
    ensures !r.isAnswering && token != "" && !fromBank && toBank ==>
      s == r.(answer := Without(r.answer, token), bank := r.bank + [token])
  {
    if r.isAnswering || token == "" then r
    else if fromBank && !toBank then r.(bank := Without(r.bank, token), answer := r.answer + [token])
    else if !fromBank && toBank then r.(answer := Without(r.answer, token), bank := r.bank + [token])
    else r
  }

  /** The word dragged is one shown on the side it is dragged from. */
  predicate FromItsSide(r: Round, token: string, fromBank: bool) {
    if fromBank then token in r.bank else token in r.answer
  }

  /** After a word has been moved to the answer it exists once only, over
      the bank and the answer together. */
  ghost predicate MovedOnce(r: Round) {
    forall t :: t in r.answer ==> multiset(r.bank)[t] + multiset(r.answer)[t] == 1
  }

  /** Drops of shown words keep every answer word single. */
  lemma DropKeepsMovedOnce(r: Round, token: string, fromBank: bool, toBank: bool)
    requires MovedOnce(r) && FromItsSide(r, token, fromBank)
    ensures MovedOnce(Dropped(r, token, fromBank, toBank))
  {
    var s := Dropped(r, token, fromBank, toBank);
    if s != r && fromBank {
      assert multiset(r.answer)[token] == 0 by {
        if token in r.answer {
          assert multiset(r.bank)[token] >= 1;
        }
      }
      forall t | t in s.answer
        ensures multiset(s.bank)[t] + multiset(s.answer)[t] == 1
      {
        assert multiset(s.answer) == multiset(r.answer) + multiset{token};
        if t != token {
          assert t in r.answer;
        }
      }
    } else if s != r {
      forall t | t in s.answer
        ensures multiset(s.bank)[t] + multiset(s.answer)[t] == 1
      {
        assert multiset(s.bank) == multiset(r.bank) + multiset{token};
        assert t != token && t in r.answer;
      }
    }
  }

  /** A word at two positions of a sequence counts twice in it. */
  lemma TwiceCounted(s: seq<string>, i: int, j: int)
    requires 0 <= i < j < |s| && s[i] == s[j]
    ensures multiset(s)[s[i]] >= 2
  {
    assert s == s[..j] + [s[j]] + s[j + 1..];
    assert s[i] in s[..j];
  }

  /** So a sentence that repeats a word can never be built: the answer
      never equals its words. */
  lemma RepeatedWordNeverBuilt(r: Round, english: seq<string>, i: int, j: int)
    requires MovedOnce(r) && 0 <= i < j < |english| && english[i] == english[j]
    ensures r.answer != english
  {
    TwiceCounted(english, i, j);
    assert english[i] in english;
  }

  /** A sentence `w x w` (say "you and you") banked as `w x w`: dragging
      `w` to the answer takes both copies out of the bank. */
  lemma DropLosesRepeatedWord(w: string, x: string)
    requires w != "" && w != x
    ensures Dropped(Round([w, x, w], [], false), w, true, false) == Round([x], [w], false)
  {
    assert [w, x, w][1..] == [x, w] && [x, w][1..] == [w] && [w][1..] == [];
    assert Without([w], w) == [];
    assert Without([x, w], w) == [x];
  }

  /** Dragging the one word left gives `w x`, which is judged wrong, and
      leaves nothing to drag. */
  lemma RepeatedWordAnswerWrong(w: string, x: string)
    requires Words([w, x])
    ensures var r := Dropped(Round([x], [w], false), x, true, false);
      r == Round([], [w, x], false) && !AnswerRight(r.answer, [w, x, w])
  {
    assert [x][1..] == [] && Without([x], x) == [];
    assert w == [w, x][0] && x == [w, x][1];
    assert Words([w, x, w]);
    RightIffSameWords([w, x], [w, x, w]);
    assert |LowerAll([w, x])| != |LowerAll([w, x, w])|;
  }

  /** The first copy of the word taken out. */
  function RemoveFirst(s: seq<string>, token: string): (r: seq<string>)
    ensures multiset(r) == multiset(s) - multiset{token}
  {
    if s == [] then []
    else if s[0] == token then
      assert s == [s[0]] + s[1..];
      s[1..]
    else
      assert s == [s[0]] + s[1..];
      [s[0]] + RemoveFirst(s[1..], token)
  }

  /** A drop that moves the one word dragged. */
  function DroppedOne(r: Round, token: string, fromBank: bool, toBank: bool): (s: Round)
    ensures r.isAnswering || token == "" || fromBank == toBank ==> s == r
    ensures !r.isAnswering && token != "" && fromBank && !toBank ==> s.answer == r.answer + [token]
    ensures !r.isAnswering && token != "" && !fromBank && toBank ==> s.bank == r.bank + [token]
    ensures FromItsSide(r, token, fromBank) ==>
      multiset(s.bank) + multiset(s.answer) == multiset(r.bank) + multiset(r.answer)
  {
    if r.isAnswering || token == "" then r
    else if fromBank && !toBank then r.(bank := RemoveFirst(r.bank, token), answer := r.answer + [token])
    else if !fromBank && toBank then r.(answer := RemoveFirst(r.answer, token), bank := r.bank + [token])
    else r
  }

  /** Dragging each of the words, in turn, from the bank to the answer. */
  function DragAll(r: Round, ts: seq<string>): Round
    decreases |ts|
  {
    if ts == [] then r else DragAll(DroppedOne(r, ts[0], true, false), ts[1..])
  }

  /** With one-word moves, dragging the sentence's words in order from a
      bank that is a shuffle of them empties the bank and builds the
      sentence. */
  lemma {:induction false} DragInOrder(bank: seq<string>, answer: seq<string>, ts: seq<string>)
    requires multiset(bank) == multiset(ts) && "" !in ts
    ensures DragAll(Round(bank, answer, false), ts) == Round([], answer + ts, false)
    decreases |ts|
  {
    if ts == [] {
      DragNothing(bank, answer);
    } else {
      var r1 := DragFirst(bank, answer, ts);
      DragInOrder(r1.bank, r1.answer, ts[1..]);
      Assoc(answer, ts);
    }
  }

  lemma Assoc(answer: seq<string>, ts: seq<string>)
    requires ts != []
    ensures answer + [ts[0]] + ts[1..] == answer + ts
  {
    assert ts == [ts[0]] + ts[1..];
  }

  lemma DragNothing(bank: seq<string>, answer: seq<string>)
    requires multiset(bank) == multiset{}
    ensures DragAll(Round(bank, answer, false), []) == Round([], answer + [], false)
  {
    assert |bank| == |multiset(bank)| == 0;
  }

  /** One step of the above: the first word moves over. */
  lemma DragFirst(bank: seq<string>, answer: seq<string>, ts: seq<string>) returns (r1: Round)
    requires multiset(bank) == multiset(ts) && "" !in ts && ts != []
    ensures r1 == Round(RemoveFirst(bank, ts[0]), answer + [ts[0]], false)
    ensures DragAll(Round(bank, answer, false), ts) == DragAll(r1, ts[1..])
    ensures multiset(r1.bank) == multiset(ts[1..]) && "" !in ts[1..]
  {
    assert ts == [ts[0]] + ts[1..];
    r1 := Round(RemoveFirst(bank, ts[0]), answer + [ts[0]], false);
    assert ts[0] != "";
  }

  /** ... and that answer is judged right, repeated words or not. */
  lemma DragInOrderRight(q: Question)
    requires multiset(q.scrambledTokens) == multiset(q.englishTokens) && Words(q.englishTokens)
    ensures var r := DragAll(Round(q.scrambledTokens, [], false), q.englishTokens);
      AnswerRight(r.answer, q.englishTokens)
  {
    assert "" !in q.englishTokens;
    DragInOrder(q.scrambledTokens, [], q.englishTokens);
    assert [] + q.englishTokens == q.englishTokens;
  }

  // ---------------------------------------------------------------------
  // The game
  // ---------------------------------------------------------------------

  datatype Feedback = NoFeedback | Right(sentence: string) | Wrong(sentence: string)

  /** What one game holds besides its flags, clock and store. */
  datatype Play = Play(questions: seq<Question>, currentQuestionIndex: int, score: int,
                       round: Round, feedback: Feedback)

  ghost predicate PlayOk(p: Play) {
    p.score >= 0 && p.currentQuestionIndex >= 0
    && (|p.questions| > 0 ==> p.currentQuestionIndex < |p.questions|)
  }

  const NoPlay := Play([], 0, 0, Round([], [], false), NoFeedback)

  /** The bank of a question, with an empty answer line. */
  function Banked(q: Question, answering: bool): Round {
    Round(q.scrambledTokens, [], answering)
  }

  /** `startGame`'s play: the first question's bank, or the old words when
      there is no question. */
  function StartPlay(qs: seq<Question>, old_round: Round): (p: Play)
    ensures PlayOk(p) && p.questions == qs && p.currentQuestionIndex == 0 && p.score == 0
    ensures p.feedback == NoFeedback && !p.round.isAnswering
    ensures |qs| > 0 ==> p.round == Banked(qs[0], false) && MovedOnce(p.round)
    ensures |qs| == 0 ==> p.round == old_round.(isAnswering := false)
  {
    Play(qs, 0, 0, if |qs| > 0 then Banked(qs[0], false) else old_round.(isAnswering := false), NoFeedback)
  }

  /** `clearAnswer`: ignored while answering; otherwise the bank is the
      question's shuffle again and the answer line is empty. */
  function Cleared(p: Play): (r: Play)
    requires PlayOk(p) && 0 <= p.currentQuestionIndex < |p.questions|
    ensures PlayOk(r)
    ensures p.round.isAnswering ==> r == p
    ensures !p.round.isAnswering ==>
      r == p.(round := Banked(p.questions[p.currentQuestionIndex], false), feedback := NoFeedback)
      && MovedOnce(r.round)
  {
    if p.round.isAnswering then p
    else p.(round := Banked(p.questions[p.currentQuestionIndex], false), feedback := NoFeedback)
  }

  /** `submitAnswer`: ignored while answering; otherwise the round locks
      and a right answer scores one point. */
  function Submitted(p: Play): (r: Play)
    requires PlayOk(p) && 0 <= p.currentQuestionIndex < |p.questions|
    ensures PlayOk(r) && r.questions == p.questions && r.currentQuestionIndex == p.currentQuestionIndex
    ensures p.round.isAnswering ==> r == p
    ensures !p.round.isAnswering ==>
      var english := p.questions[p.currentQuestionIndex].englishTokens;
      r.round == p.round.(isAnswering := true)
      && r.score == (if AnswerRight(p.round.answer, english) then p.score + 1 else p.score)
      && r.feedback == (if AnswerRight(p.round.answer, english) then Right(Join(english, " "))
                        else Wrong(Join(english, " ")))
  {
    if p.round.isAnswering then p
    else
      var english := p.questions[p.currentQuestionIndex].englishTokens;
      if AnswerRight(p.round.answer, english) then
        p.(round := p.round.(isAnswering := true), score := p.score + 1, feedback := Right(Join(english, " ")))
      else p.(round := p.round.(isAnswering := true), feedback := Wrong(Join(english, " ")))
  }

  /** The store after a submission. */
  function SubmittedStore(p: Play, store: GameStore.GameState): (s: GameStore.GameState)
    requires 0 <= p.currentQuestionIndex < |p.questions|
    ensures p.round.isAnswering ==> s == store
    ensures !p.round.isAnswering && AnswerRight(p.round.answer, p.questions[p.currentQuestionIndex].englishTokens)
      ==> s == GameStore.AnswerCorrect(store)
    ensures !p.round.isAnswering && !AnswerRight(p.round.answer, p.questions[p.currentQuestionIndex].englishTokens)
      ==> s == GameStore.AnswerIncorrect(store)
  {
    if p.round.isAnswering then store
    else if AnswerRight(p.round.answer, p.questions[p.currentQuestionIndex].englishTokens) then GameStore.AnswerCorrect(store)
    else GameStore.AnswerIncorrect(store)
  }

  /** The timeout's move when a next question exists. */
  function Advanced(p: Play): (r: Play)
    requires PlayOk(p) && p.currentQuestionIndex + 1 < |p.questions|
    ensures PlayOk(r) && r.questions == p.questions && r.score == p.score
    ensures r.currentQuestionIndex == p.currentQuestionIndex + 1
    ensures r.round == Banked(p.questions[r.currentQuestionIndex], false) && MovedOnce(r.round)
    ensures r.feedback == NoFeedback
  {
    var next := p.currentQuestionIndex + 1;
    p.(currentQuestionIndex := next, round := Banked(p.questions[next], false), feedback := NoFeedback)
  }

  /** What `startGame` sets up: the questions, their first bank and the
      store reset with the question count as total. */
  ghost predicate NewGameFacts(vocab: seq<VocabItem>, oldRound: Round, oldStore: GameStore.GameState,
                               p: Play, store: GameStore.GameState) {
    p == StartPlay(p.questions, oldRound)
    && |p.questions| == |WithSentence(vocab)|
    && (forall q :: q in p.questions ==> exists v :: v in vocab && QuestionOf(q, v))
    && store == GameStore.SetTotalQuestions(GameStore.ResetGame(oldStore), |p.questions|)
  }

  method NewGame(vocab: seq<VocabItem>, oldRound: Round, oldStore: GameStore.GameState)
    returns (p: Play, store: GameStore.GameState)
    ensures PlayOk(p) && NewGameFacts(vocab, oldRound, oldStore, p, store)
  {
    var newQuestions := CreateQuestions(vocab);
    p := StartPlay(newQuestions, oldRound);
    store := GameStore.SetTotalQuestions(GameStore.ResetGame(oldStore), |newQuestions|);
  }

  class UnjumbleGame {
    const vocabWords: seq<VocabItem>
    var play: Play
    var isGameStarted: bool
    var isGameOver: bool
    var timer: nat
    var timerRunning: bool
    var store: GameStore.GameState

    ghost predicate Valid()
      reads this
    {
      PlayOk(play)
    }

    /** Mounting sets the question total and then resets the store, so the
        total reads 0 until a game starts. */
    constructor(vocabData: seq<VocabItem>, initialStore: GameStore.GameState)
      ensures Valid() && vocabWords == vocabData && play == NoPlay
      ensures !isGameStarted && !isGameOver && timer == 0 && !timerRunning
      ensures store == GameStore.ResetGame(GameStore.SetTotalQuestions(initialStore, |vocabData|))
    {
      vocabWords := vocabData;
      play := NoPlay;
      isGameStarted := false;
      isGameOver := false;
      timer := 0;
      timerRunning := false;
      store := GameStore.ResetGame(GameStore.SetTotalQuestions(initialStore, |vocabData|));
    }

    method Tick()
      requires timerRunning
      modifies this
      ensures timer == old(timer) + 1 && timerRunning && play == old(play) && store == old(store)
      ensures isGameStarted == old(isGameStarted) && isGameOver == old(isGameOver)
    {
      timer := timer + 1;
    }

    method StartGame()
      modifies this
      ensures Valid() && isGameStarted && !isGameOver && timer == 0 && timerRunning
      ensures NewGameFacts(vocabWords, old(play).round, old(store), play, store)
    {
      play, store := NewGame(vocabWords, play.round, store);
      isGameStarted := true;
      isGameOver := false;
      timer := 0;
      timerRunning := true;
    }

    /** `restartGame`: back to the start screen with no questions and no
        words; the clock stops but keeps its reading. */
    method RestartGame()
      modifies this
      ensures Valid() && play == NoPlay && !isGameStarted && !isGameOver
      ensures !timerRunning && timer == old(timer) && store == GameStore.ResetGame(old(store))
    {
      timerRunning := false;
      isGameStarted := false;
      isGameOver := false;
      play := NoPlay;
      store := GameStore.ResetGame(store);
    }

    /** A drop carrying what the drag recorded. */
    method HandleDrop(token: string, fromBank: bool, toBank: bool)
      requires Valid()
      modifies this
      ensures Valid() && play == old(play).(round := Dropped(old(play).round, token, fromBank, toBank))
      ensures store == old(store) && timer == old(timer) && timerRunning == old(timerRunning)
      ensures isGameStarted == old(isGameStarted) && isGameOver == old(isGameOver)
    {
      play := play.(round := Dropped(play.round, token, fromBank, toBank));
    }

    method ClearAnswer()
      requires Valid() && 0 <= play.currentQuestionIndex < |play.questions|
      modifies this
      ensures Valid() && play == Cleared(old(play))
      ensures store == old(store) && timer == old(timer) && timerRunning == old(timerRunning)
      ensures isGameStarted == old(isGameStarted) && isGameOver == old(isGameOver)
    {
      play := Cleared(play);
    }

    /** `submitAnswer`; the move on follows 2 s later as `AfterSubmit`. */
    method SubmitAnswer()
      requires Valid() && 0 <= play.currentQuestionIndex < |play.questions|
      modifies this
      ensures Valid() && play == Submitted(old(play)) && store == SubmittedStore(old(play), old(store))
      ensures timer == old(timer) && timerRunning == old(timerRunning)
      ensures isGameStarted == old(isGameStarted) && isGameOver == old(isGameOver)
    {
      store := SubmittedStore(play, store);
      play := Submitted(play);
    }

    /** The timeout: the next question's bank, or game over with the clock
        stopped after the last. */
    method AfterSubmit()
      requires Valid()
      modifies this
      ensures Valid() && store == old(store) && timer == old(timer) && isGameStarted == old(isGameStarted)
      ensures old(play).currentQuestionIndex + 1 < |old(play).questions| ==>
        play == Advanced(old(play)) && isGameOver == old(isGameOver) && timerRunning == old(timerRunning)
      ensures old(play).currentQuestionIndex + 1 >= |old(play).questions| ==>
        play == old(play) && isGameOver && !timerRunning
    {
      if play.currentQuestionIndex + 1 < |play.questions| {
        play := Advanced(play);
      } else {
        isGameOver := true;
        timerRunning := false;
      }
    }

    method CloseResults()
      modifies this
      ensures !isGameOver && isGameStarted == old(isGameStarted) && play == old(play)
      ensures store == old(store) && timer == old(timer) && timerRunning == old(timerRunning)
    {
      isGameOver := false;
    }
  }
}
