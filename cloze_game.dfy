/**
 * The cloze game (`ClozeGame`): a paragraph with `_____` gaps, one text box
 * per gap, and the list of words to fill in. The check passes when every
 * answer, trimmed and lower-cased, equals the word of the same index
 * lower-cased; then the game closes.
 */
module Cloze {
  import opened Wrappers
  import opened Text
  import Answers

  /** `sep` occurs in `s` at position `k`. */
  predicate OccursAt(s: string, sep: string, k: nat) {
    k + |sep| <= |s| && s[k..k + |sep|] == sep
  }

  ghost predicate Free(s: string, sep: string) {
    forall j: nat :: !OccursAt(s, sep, j)
  }

  /** `s.indexOf(sep, from)`: the first position at or after `from` where
      `sep` occurs. */
  function FindFrom(s: string, sep: string, from: nat): (r: Option<nat>)
    ensures r.Some? ==> from <= r.value && OccursAt(s, sep, r.value)
    ensures r.Some? ==> forall j: nat :: from <= j < r.value ==> !OccursAt(s, sep, j)
    ensures r.None? ==> forall j: nat :: from <= j ==> !OccursAt(s, sep, j)
    decreases |s| - from
  {
    if from + |sep| > |s| then None
    else if s[from..from + |sep|] == sep then Some(from)
    else FindFrom(s, sep, from + 1)
  }

  /** Nothing before the first occurrence holds one. */
  lemma PrefixFree(s: string, sep: string, k: nat)
    requires |sep| > 0 && k <= |s| && forall j: nat :: j < k ==> !OccursAt(s, sep, j)
    ensures Free(s[..k], sep)
  {
    if !Free(s[..k], sep) {
      var j: nat :| OccursAt(s[..k], sep, j);
      assert s[..k][j..j + |sep|] == s[j..j + |sep|];
      assert OccursAt(s, sep, j);
      assert false;
    }
  }

  /** `s.split(sep)` for a non-empty separator string: cut at the first
      occurrence, then go on after it. */
  function SplitOn(s: string, sep: string): (r: seq<string>)
    requires |sep| > 0
    ensures |r| >= 1
    decreases |s|
  {
    var f := FindFrom(s, sep, 0);
    if f.None? then [s]
    else [s[..f.value]] + SplitOn(s[f.value + |sep|..], sep)
  }

  /** No piece holds the separator, and there is one piece exactly when the
      string does not hold it. */
  lemma {:induction false} SplitOnPieces(s: string, sep: string)
    requires |sep| > 0
    ensures forall k :: 0 <= k < |SplitOn(s, sep)| ==> Free(SplitOn(s, sep)[k], sep)
    ensures |SplitOn(s, sep)| == 1 <==> Free(s, sep)
    decreases |s|
  {
    var f := FindFrom(s, sep, 0);
    if f.Some? {
      var k := f.value;
      var rest := s[k + |sep|..];
      SplitOnPieces(rest, sep);
      PrefixFree(s, sep, k);
      assert SplitOn(s, sep) == [s[..k]] + SplitOn(rest, sep);
      assert OccursAt(s, sep, k);
    }
  }

  /** Splitting and joining back with the same separator gives the string. */
  lemma {:induction false} JoinSplitOn(s: string, sep: string)
    requires |sep| > 0
    ensures Join(SplitOn(s, sep), sep) == s
    decreases |s|
  {
    var f := FindFrom(s, sep, 0);
    if f.Some? {
      var k := f.value;
      var rest := s[k + |sep|..];
      var tail := SplitOn(rest, sep);
      JoinSplitOn(rest, sep);
      var parts := [s[..k]] + tail;
      assert SplitOn(s, sep) == parts;
      assert parts[1..] == tail;
      assert Join(parts, sep) == s[..k] + sep + Join(tail, sep);
      assert s[k..k + |sep|] == sep;
      assert s == s[..k] + s[k..k + |sep|] + rest;
    }
  }

  const Gap := "_____"

  datatype ClozeData = ClozeData(paragraph: string, words: seq<string>)

  /** `paragraph.split('_____')`: the text pieces around the gaps. */
  function Parts(paragraph: string): seq<string> {
    SplitOn(paragraph, Gap)
  }

  /** One text box after every piece but the last. */
  function Blanks(paragraph: string): nat {
    |Parts(paragraph)| - 1
  }

  /** No piece holds a gap, and there are no boxes exactly when the
      paragraph has no gap. */
  lemma BlanksCountGaps(paragraph: string)
    ensures Free(paragraph, Gap) <==> Blanks(paragraph) == 0
    ensures forall k :: 0 <= k < |Parts(paragraph)| ==> Free(Parts(paragraph)[k], Gap)
  {
    SplitOnPieces(paragraph, Gap);
  }

  /** The pieces and the gaps, laid out in order, are the paragraph. */
  lemma PiecesRebuildParagraph(paragraph: string)
    ensures Join(Parts(paragraph), Gap) == paragraph
  {
    JoinSplitOn(paragraph, Gap);
  }

  /** One element of the `answers` array: a string, a hole (an index the
      array has never held, which `every` skips) or `undefined` (what the
      spread `[...prev]` puts in place of a hole). */
  datatype Slot = Typed(text: string) | Hole | Undefined

  /** `new Array(words.length).fill('')` */
  function InitialAnswers(words: seq<string>): (r: seq<Slot>)
    ensures |r| == |words| && forall i :: 0 <= i < |r| ==> r[i] == Typed("")
  {
    seq(|words|, _ => Typed(""))
  }

  /** What the check makes of the answers. `Crash` is the `TypeError` of
      calling `trim` on `undefined` or `toLowerCase` on a word past the end
      of the list. */
  datatype Verdict = Correct | Wrong | Crash

  /** `answers.every((answer, index) => answer.trim().toLowerCase() ===
      words[index].toLowerCase())`, from index `k` on: holes are skipped,
      the first failing comparison stops the scan. */
  function Every(answers: seq<Slot>, words: seq<string>, k: nat): Verdict
    decreases |answers| - k
  {
    if k >= |answers| then Correct
    else match answers[k]
      case Hole => Every(answers, words, k + 1)
      case Undefined => Crash
      case Typed(text) =>
        if k >= |words| then Crash
        else if Answers.TypedMatches(text, words[k]) then Every(answers, words, k + 1)
        else Wrong
  }

  /** The answer at `j` passes: a hole, or a typed answer that matches the
      word of its index. */
  predicate Passes(answers: seq<Slot>, words: seq<string>, j: nat)
    requires j < |answers|
  {
    answers[j].Hole? || (answers[j].Typed? && j < |words| && Answers.TypedMatches(answers[j].text, words[j]))
  }

  /** Every answer passes. */
  predicate Solved(answers: seq<Slot>, words: seq<string>) {
    forall j :: 0 <= j < |answers| ==> Passes(answers, words, j)
  }

  /** The scan is correct exactly when every answer from `k` on passes; it
      is wrong only at a typed answer that fails its word, and it crashes
      only at `undefined` or at a typed answer past the word list. */
  lemma {:induction false} EveryVerdicts(answers: seq<Slot>, words: seq<string>, k: nat)
    ensures Every(answers, words, k) == Correct <==> forall j :: k <= j < |answers| ==> Passes(answers, words, j)
    ensures Every(answers, words, k) == Wrong ==>
      exists j :: k <= j < |answers| && j < |words| && answers[j].Typed? && !Answers.TypedMatches(answers[j].text, words[j])
    ensures Every(answers, words, k) == Crash ==>
      exists j :: k <= j < |answers| && (answers[j].Undefined? || (answers[j].Typed? && j >= |words|))
    decreases |answers| - k
  {
    if k < |answers| {
      EveryVerdicts(answers, words, k + 1);
      assert Every(answers, words, k) == Correct <==>
        Passes(answers, words, k) && Every(answers, words, k + 1) == Correct;
    }
  }

  /** The check passes exactly when the game is solved. */
  lemma CheckPassesWhenSolved(answers: seq<Slot>, words: seq<string>)
    ensures Every(answers, words, 0) == Correct <==> Solved(answers, words)
  {
    EveryVerdicts(answers, words, 0);
  }

  /** Typing each word as listed, with or without surrounding spaces, solves
      the game, when no listed word has surrounding spaces. */
  lemma TypingTheWordsSolves(words: seq<string>, answers: seq<Slot>, pad: string)
    requires |answers| == |words| && forall i :: 0 <= i < |words| ==> Unpadded(words[i])
    requires forall i :: 0 <= i < |pad| ==> IsSpace(pad[i])
    requires forall i :: 0 <= i < |words| ==> answers[i] == Typed(pad + words[i] + pad)
    ensures Solved(answers, words)
  {
    forall i | 0 <= i < |words|
      ensures Passes(answers, words, i)
    {
      Answers.TypedMatchesOwnAnswer(words[i], pad);
    }
  }

  /** An untouched box only passes for an empty word. */
  lemma EmptyAnswerPassesOnlyEmptyWord(word: string)
    ensures Answers.TypedMatches("", word) <==> word == ""
  {
    assert Trim("") == "";
  }

  /** `[...prev]`: the holes become `undefined`. */
  function Spread(answers: seq<Slot>): (r: seq<Slot>)
    ensures |r| == |answers|
    ensures forall j :: 0 <= j < |r| ==> r[j] == (if answers[j].Hole? then Undefined else answers[j])
  {
    seq(|answers|, j requires 0 <= j < |answers| => if answers[j].Hole? then Undefined else answers[j])
  }

  /** The box at `index` edited: `newA[index] = value` on the spread copy.
      Past the end the array grows to `index + 1`, with holes in between. */
  function Edited(answers: seq<Slot>, index: nat, value: string): (r: seq<Slot>)
    ensures |r| == (if index < |answers| then |answers| else index + 1)
    ensures r[index] == Typed(value)
    ensures forall j :: 0 <= j < |answers| && j != index ==> r[j] == (if answers[j].Hole? then Undefined else answers[j])
    ensures forall j :: |answers| <= j < index ==> r[j] == Hole
  {
    var spread := Spread(answers);
    if index < |answers| then spread[index := Typed(value)]
    else spread + seq(index - |answers|, _ => Hole) + [Typed(value)]
  }

  class ClozeGame {
    const data: ClozeData
    var answers: seq<Slot>
    var closed: bool

    /** At least one answer per word, and those are strings; the array only
        grows through the boxes, so it is no longer than the boxes or the
        words; the boxes past the last gap are never shown, so their answers
        stay empty. */
    ghost predicate Valid()
      reads this
    {
      |data.words| <= |answers|
      && (|answers| == |data.words| || |answers| <= Blanks(data.paragraph))
      && (forall j :: 0 <= j < |data.words| ==> answers[j].Typed?)
      && forall j :: Blanks(data.paragraph) <= j < |answers| ==> answers[j] == Typed("")
    }

    constructor(clozeData: ClozeData)
      ensures Valid() && data == clozeData && answers == InitialAnswers(clozeData.words) && !closed
    {
      data := clozeData;
      answers := InitialAnswers(clozeData.words);
      closed := false;
    }

    /** Typing in the box after piece `index`. */
    method Edit(index: nat, value: string)
      requires Valid() && index < Blanks(data.paragraph)
      modifies this
      ensures Valid() && answers == Edited(old(answers), index, value) && closed == old(closed)
    {
      answers := Edited(answers, index, value);
    }

    /** `checkAnswers`: the message shown, and closing when solved; `None`
        when the check throws, which shows nothing and changes nothing. */
    method CheckAnswers() returns (message: Option<string>)
      requires Valid()
      modifies this
      ensures Valid() && answers == old(answers)
      ensures Every(answers, data.words, 0) == Correct <==> Solved(answers, data.words)
      ensures Every(answers, data.words, 0) == Correct ==> closed && message == Some("Chúc mừng! Bạn đã hoàn thành!")
      ensures Every(answers, data.words, 0) == Wrong ==> closed == old(closed) && message == Some("Chưa đúng, thử lại nhé!")
      ensures Every(answers, data.words, 0) == Crash ==> closed == old(closed) && message == None
    {
      CheckPassesWhenSolved(answers, data.words);
      match Every(answers, data.words, 0)
      case Correct =>
        message := Some("Chúc mừng! Bạn đã hoàn thành!");
        closed := true;
      case Wrong =>
        message := Some("Chưa đúng, thử lại nhé!");
      case Crash =>
        message := None;
    }

    /** With fewer gaps than words, a non-empty word past the last gap can
        never be filled in, so no sequence of edits solves the game. */
    lemma FewerGapsNeverSolved(j: nat)
      requires Valid() && Blanks(data.paragraph) <= j < |data.words| && data.words[j] != ""
      ensures !Solved(answers, data.words)
    {
      EmptyAnswerPassesOnlyEmptyWord(data.words[j]);
      assert !Passes(answers, data.words, j);
    }

    /** With more gaps than words, typing in a box past the word list means
        the check never passes: it finds a wrong answer first or throws. */
    lemma TypedPastWordsNeverPasses(index: nat, value: string)
      requires Valid() && |data.words| <= index < Blanks(data.paragraph)
      ensures Every(Edited(answers, index, value), data.words, 0) != Correct
    {
      var r := Edited(answers, index, value);
      assert !Passes(r, data.words, index);
      CheckPassesWhenSolved(r, data.words);
    }

    method Close()
      modifies this
      ensures closed && answers == old(answers)
    {
      closed := true;
    }
  }
}
