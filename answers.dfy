/**
 * The answer normalisations the lessons and games compare typed answers with.
 * Each is a pipeline of `trim`, `toLowerCase` and one character filter.
 */
module Answers {
  import opened Text

  /** `s.trim().toLowerCase()`: the comparison form of most typed answers. */
  function TrimLower(s: string): (r: string)
    ensures |r| <= |s|
    ensures forall i :: 0 <= i < |r| ==> !IsUpper(r[i])
    ensures r == [] || (!IsSpace(r[0]) && !IsSpace(r[|r| - 1]))
  {
    var t := Trim(s);
    LowerCharSpace(if t == [] then ' ' else t[0]);
    LowerCharSpace(if t == [] then ' ' else t[|t| - 1]);
    ToLower(t)
  }

  lemma TrimLowerIdempotent(s: string)
    ensures TrimLower(TrimLower(s)) == TrimLower(s)
  {
    var r := TrimLower(s);
    TrimOfUnpadded(r);
    ToLowerIdempotent(Trim(s));
  }

  lemma UpperThenLower(s: string)
    ensures ToLower(ToUpper(s)) == ToLower(s)
  {
    assert forall i :: 0 <= i < |s| ==> LowerChar(UpperChar(s[i])) == LowerChar(s[i]);
  }

  /** Trimming removes exactly the padding around an unpadded string. */
  lemma TrimPadded(s: string, pad: string)
    requires forall i :: 0 <= i < |pad| ==> IsSpace(pad[i])
    requires Unpadded(s)
    ensures Trim(pad + s + pad) == s
  {
    var t := pad + s + pad;
    if s == [] {
      assert forall i :: 0 <= i < |t| ==> IsSpace(t[i]);
      TrimAllSpace(t);
      return;
    }
    var a := TrimStart(t);
    assert t[|pad|] == s[0] && !IsSpace(t[|pad|]);
    assert |t| - |a| <= |pad|;
    assert forall i :: 0 <= i < |pad| ==> IsSpace(t[i]);
    assert a[0] == t[|t| - |a|];
    assert |t| - |a| == |pad|;
    assert a == s + pad;
    var b := TrimEnd(a);
    assert a[|s| - 1] == s[|s| - 1] && !IsSpace(a[|s| - 1]);
    assert |b| >= |s|;
    assert forall i :: |s| <= i < |a| ==> IsSpace(a[i]);
    assert b[|b| - 1] == a[|b| - 1];
    assert |b| == |s|;
  }

  predicate NotDotOrQuestion(c: char) { c != '.' && c != '?' }

  /** `s.replace(/[.?]/g, '')` */
  function StripDotAndQuestion(s: string): (r: string)
    ensures '.' !in r && '?' !in r
    ensures forall i :: 0 <= i < |s| && NotDotOrQuestion(s[i]) ==> s[i] in r
  {
    Keep(s, NotDotOrQuestion)
  }

  /** The user side of the slide exercises: trim, lower case, drop '.' and '?'. */
  function SlideUserForm(answer: string): (r: string)
    ensures '.' !in r && '?' !in r
    ensures forall i :: 0 <= i < |r| ==> !IsUpper(r[i])
  {
    KeepPreserves(TrimLower(answer), NotDotOrQuestion, c => !IsUpper(c));
    StripDotAndQuestion(TrimLower(answer))
  }

  /** The expected side of the slide exercises: lower case, drop '.' and '?'
      (no trim). */
  function SlideExpectedForm(expected: string): (r: string)
    ensures '.' !in r && '?' !in r
    ensures forall i :: 0 <= i < |r| ==> !IsUpper(r[i])
  {
    ToLowerHasNoUpper(expected);
    KeepPreserves(ToLower(expected), NotDotOrQuestion, c => !IsUpper(c));
    StripDotAndQuestion(ToLower(expected))
  }

  predicate IsAlnumOrSpace(c: char) {
    ('a' <= c <= 'z') || ('A' <= c <= 'Z') || ('0' <= c <= '9') || c == ' '
  }

  /** `s.trim().toLowerCase().replace(/[^a-zA-Z0-9 ]/g, '')` */
  function AlnumForm(s: string): (r: string)
    ensures forall i :: 0 <= i < |r| ==> ('a' <= r[i] <= 'z') || ('0' <= r[i] <= '9') || r[i] == ' '
  {
    KeepPreserves(TrimLower(s), IsAlnumOrSpace, c => !IsUpper(c));
    Keep(TrimLower(s), IsAlnumOrSpace)
  }

  predicate IsLetterOrSpace(c: char) { ('a' <= c <= 'z') || IsSpace(c) }

  /** `s.replace(/[^a-z\s]/g, '')` */
  function LettersAndSpaces(s: string): (r: string)
    ensures forall i :: 0 <= i < |r| ==> IsLetterOrSpace(r[i])
  {
    Keep(s, IsLetterOrSpace)
  }

  /** The fill-in rule `user.trim().toLowerCase() === answer.toLowerCase()`
      used by the quiz, typing and board games. */
  predicate TypedMatches(user: string, answer: string) {
    TrimLower(user) == ToLower(answer)
  }

  /** `ToUpper` keeps a string unpadded. */
  lemma UpperUnpadded(s: string)
    requires Unpadded(s)
    ensures Unpadded(ToUpper(s))
  {
    if s != [] {
      LowerCharSpace(s[0]);
      LowerCharSpace(s[|s| - 1]);
    }
  }

  /** A typed answer matches whatever its padding and letter case, as long as
      the expected answer carries no padding. */
  lemma TypedMatchesOwnAnswer(answer: string, pad: string)
    requires forall i :: 0 <= i < |pad| ==> IsSpace(pad[i])
    requires Unpadded(answer)
    ensures TypedMatches(pad + answer + pad, answer)
    ensures TypedMatches(pad + ToUpper(answer) + pad, answer)
  {
    TrimPadded(answer, pad);
    UpperUnpadded(answer);
    TrimPadded(ToUpper(answer), pad);
    UpperThenLower(answer);
  }

  /** The rule of the slide exercises: `answer.trim().toLowerCase()` and the
      expected answer lowered, both with every '.' and '?' removed, are equal. */
  predicate SlideAnswerMatches(answer: string, expected: string) {
    SlideUserForm(answer) == SlideExpectedForm(expected)
  }

  predicate IsDotOrQuestion(c: char) { c == '.' || c == '?' }

  /** An answer is accepted with any padding, in its own or lower case, and
      with any trailing '.' and '?'; the expected answer's own '.' and '?'
      do not matter either. */
  lemma SlideAnswerVariants(expected: string, pad: string, punct: string)
    requires forall i :: 0 <= i < |pad| ==> IsSpace(pad[i])
    requires forall i :: 0 <= i < |punct| ==> IsDotOrQuestion(punct[i])
    requires Unpadded(expected)
    ensures SlideAnswerMatches(pad + expected + punct + pad, expected)
    ensures SlideAnswerMatches(pad + ToLower(expected) + punct + pad, expected)
    ensures SlideAnswerMatches(expected, expected + punct)
  {
    TypedForm(expected, pad, punct);
    LoweredTyped(expected, pad, punct);
    ExpectedPunctuation(expected, punct);
  }

  lemma LoweredTyped(expected: string, pad: string, punct: string)
    requires forall i :: 0 <= i < |pad| ==> IsSpace(pad[i])
    requires forall i :: 0 <= i < |punct| ==> IsDotOrQuestion(punct[i])
    requires Unpadded(expected)
    ensures SlideUserForm(pad + ToLower(expected) + punct + pad) == SlideExpectedForm(expected)
  {
    LowerUnpadded(expected);
    TypedForm(ToLower(expected), pad, punct);
    ToLowerIdempotent(expected);
  }

  lemma ExpectedPunctuation(expected: string, punct: string)
    requires forall i :: 0 <= i < |punct| ==> IsDotOrQuestion(punct[i])
    requires Unpadded(expected)
    ensures SlideUserForm(expected) == SlideExpectedForm(expected + punct)
  {
    StrippedLower(expected, punct);
    TrimOfUnpadded(expected);
  }

  /** Helper: lowering keeps a string free of surrounding spaces. */
  lemma LowerUnpadded(s: string)
    requires Unpadded(s)
    ensures Unpadded(ToLower(s))
  {
    if s != [] {
      LowerCharSpace(s[0]);
      LowerCharSpace(s[|s| - 1]);
    }
  }

  /** Trailing '.' and '?' vanish from the lowered, stripped form. */
  lemma StrippedLower(s: string, punct: string)
    requires forall i :: 0 <= i < |punct| ==> IsDotOrQuestion(punct[i])
    ensures StripDotAndQuestion(ToLower(s + punct)) == StripDotAndQuestion(ToLower(s))
  {
    assert forall i :: 0 <= i < |punct| ==> !NotDotOrQuestion(punct[i]) && LowerChar(punct[i]) == punct[i];
    assert ToLower(punct) == punct;
    KeepNone(punct, NotDotOrQuestion);
    ToLowerAppend(s, punct);
    KeepAppend(ToLower(s), punct, NotDotOrQuestion);
  }

  /** The user form of a padded, punctuated unpadded string. */
  lemma TypedForm(s: string, pad: string, punct: string)
    requires forall i :: 0 <= i < |pad| ==> IsSpace(pad[i])
    requires forall i :: 0 <= i < |punct| ==> IsDotOrQuestion(punct[i])
    requires Unpadded(s)
    ensures SlideUserForm(pad + s + punct + pad) == StripDotAndQuestion(ToLower(s))
  {
    var t := pad + s + punct + pad;
    PunctuatedUnpadded(s, punct);
    assert t == pad + (s + punct) + pad;
    TrimPadded(s + punct, pad);
    assert TrimLower(t) == ToLower(s + punct);
    StrippedLower(s, punct);
    assert SlideUserForm(t) == StripDotAndQuestion(ToLower(s + punct));
  }

  /** Helper: trailing '.' and '?' keep a string free of surrounding
      spaces. */
  lemma PunctuatedUnpadded(s: string, punct: string)
    requires forall i :: 0 <= i < |punct| ==> IsDotOrQuestion(punct[i])
    requires Unpadded(s)
    ensures Unpadded(s + punct)
  {
    if s == [] {
      assert s + punct == punct;
    } else if punct != [] {
      assert (s + punct)[0] == s[0];
      assert (s + punct)[|s + punct| - 1] == punct[|punct| - 1];
    } else {
      assert s + punct == s;
    }
  }
}
