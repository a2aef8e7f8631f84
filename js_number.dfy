/**
 * `parseInt(s)` of JavaScript with no radix argument: leading white space is
 * skipped, one sign is taken, a "0x"/"0X" prefix selects base 16, and the
 * longest run of digits of the base is read.  No digit at all gives NaN,
 * written here as `None`.
 */
module JsNumber {
  import opened Wrappers
  import opened Text

  predicate IsDecDigit(c: char) { '0' <= c <= '9' }

  predicate IsHexDigit(c: char) {
    IsDecDigit(c) || ('a' <= c <= 'f') || ('A' <= c <= 'F')
  }

  function HexDigitValue(c: char): (v: nat)
    requires IsHexDigit(c)
    ensures v < 16
    ensures IsDecDigit(c) ==> v == c as int - '0' as int
  {
    if IsDecDigit(c) then c as int - '0' as int
    else if 'a' <= c <= 'f' then c as int - 'a' as int + 10
    else c as int - 'A' as int + 10
  }

  /** The longest prefix of `s` made of digits of the given kind. */
  function DigitRun(s: string, hex: bool): (r: string)
    ensures |r| <= |s| && r == s[..|r|]
    ensures forall i :: 0 <= i < |r| ==> IsHexDigit(r[i]) && (hex || IsDecDigit(r[i]))
    ensures |r| < |s| ==> !(if hex then IsHexDigit(s[|r|]) else IsDecDigit(s[|r|]))
  {
    if s != [] && (if hex then IsHexDigit(s[0]) else IsDecDigit(s[0]))
    then [s[0]] + DigitRun(s[1..], hex)
    else []
  }

  /** The number a run of digits denotes in base 10 or 16, most significant first. */
  function DigitsValue(s: string, hex: bool): nat
    requires forall i :: 0 <= i < |s| ==> IsHexDigit(s[i])
  {
    if s == [] then 0
    else DigitsValue(s[..|s| - 1], hex) * (if hex then 16 else 10) + HexDigitValue(s[|s| - 1])
  }

  /** `parseInt(s)`: white space skipped, then an optionally signed number. */
  function ParseInt(s: string): Option<int> {
    ParseSigned(TrimStart(s))
  }

  function ParseSigned(t: string): Option<int> {
    if t != [] && (t[0] == '-' || t[0] == '+') then
      match ParseMagnitude(t[1..])
      case None => None
      case Some(v) =>
        var w: int := v;
        Some(if t[0] == '-' then -w else w)
    else
      match ParseMagnitude(t)
      case None => None
      case Some(v) => Some(v)
  }

  /** An unsigned number: base 16 after "0x" or "0X", otherwise base 10. */
  function ParseMagnitude(u: string): Option<nat> {
    if |u| >= 2 && u[0] == '0' && (u[1] == 'x' || u[1] == 'X') then ReadDigits(u[2..], true)
    else ReadDigits(u, false)
  }

  /** The value of the longest digit run at the start of `body`; `None` when
      `body` does not start with a digit. */
  function ReadDigits(body: string, hex: bool): (r: Option<nat>)
    ensures r.Some? <==> body != [] && (if hex then IsHexDigit(body[0]) else IsDecDigit(body[0]))
    ensures r.Some? ==> IsHexDigit(body[0])
  {
    var d := DigitRun(body, hex);
    if d == [] then None else Some(DigitsValue(d, hex))
  }

  /** The digit run stops at the first character that is not a digit. */
  lemma {:induction false} DigitRunStops(s: string, rest: string, hex: bool)
    requires forall i :: 0 <= i < |s| ==> IsDecDigit(s[i])
    requires rest == [] || !(if hex then IsHexDigit(rest[0]) else IsDecDigit(rest[0]))
    ensures DigitRun(s + rest, hex) == s
  {
    if s != [] {
      assert (s + rest)[0] == s[0];
      assert (s + rest)[1..] == s[1..] + rest;
      DigitRunStops(s[1..], rest, hex);
    } else {
      assert s + rest == rest;
    }
  }

  lemma {:induction false} NatToStringValue(n: nat)
    ensures DigitsValue(NatToString(n), false) == n
    decreases n
  {
    var s := NatToString(n);
    if n >= 10 {
      NatToStringValue(n / 10);
      assert s[..|s| - 1] == NatToString(n / 10);
    }
  }

  /** A decimal form is read in base 10: it never starts with "0x". */
  lemma DecimalMagnitude(n: nat, rest: string)
    requires rest == [] || !(IsDecDigit(rest[0]) || rest[0] == 'x' || rest[0] == 'X')
    ensures ParseMagnitude(NatToString(n) + rest) == Some(n)
  {
    var d := NatToString(n);
    var s := d + rest;
    assert s[0] == d[0];
    if |s| >= 2 && s[0] == '0' {
      if n >= 10 {
        assert d[0] == NatToString(n / 10)[0];
        ParseFirstDigitNonZero(n / 10);
      }
      assert |d| == 1;
      assert s[1] == rest[0];
    }
    DigitRunStops(d, rest, false);
    NatToStringValue(n);
  }

  /** Reading back the decimal form of a natural number gives the number,
      whatever follows it, as long as that does not continue the digits. */
  lemma ParseIntOfNatToString(n: nat, rest: string)
    requires rest == [] || !(IsDecDigit(rest[0]) || rest[0] == 'x' || rest[0] == 'X')
    ensures ParseInt(NatToString(n) + rest) == Some(n)
  {
    var s := NatToString(n) + rest;
    assert IsDecDigit(s[0]) by {
      assert s[0] == NatToString(n)[0];
    }
    TrimStartKeeps(s);
    DecimalMagnitude(n, rest);
    assert ParseMagnitude(s) == Some(n);
  }

  lemma TrimStartKeeps(s: string)
    requires s != [] && !IsSpace(s[0])
    ensures TrimStart(s) == s
  {
  }

  /** The decimal form of a positive number does not start with '0'. */
  lemma {:induction false} ParseFirstDigitNonZero(n: nat)
    requires n >= 1
    ensures NatToString(n)[0] != '0'
    decreases n
  {
    if n >= 10 {
      assert NatToString(n)[0] == NatToString(n / 10)[0];
      ParseFirstDigitNonZero(n / 10);
    }
  }

  /** A leading minus sign negates the number read. */
  lemma ParseIntNegative(n: nat)
    ensures ParseInt("-" + NatToString(n)) == Some(-(n as int))
  {
    var d := NatToString(n);
    TrimStartKeeps("-" + d);
    DecimalMagnitude(n, []);
    assert d + [] == d;
    SignedMinus(d);
  }

  /** A minus sign before a magnitude negates it. */
  lemma SignedMinus(u: string)
    requires ParseMagnitude(u).Some?
    ensures ParseSigned("-" + u) == Some(-(ParseMagnitude(u).value as int))
  {
    assert ("-" + u)[1..] == u;
  }

  /** Text that does not start with a digit, a sign or white space is NaN. */
  lemma ParseIntNoDigit(s: string)
    requires s == [] || !(IsDecDigit(s[0]) || IsSpace(s[0]) || s[0] == '-' || s[0] == '+')
    ensures ParseInt(s) == None
  {
    var t := TrimStart(s);
    if s != [] {
      TrimStartKeeps(s);
    }
    assert t == s;
    assert ParseMagnitude(t) == ReadDigits(t, false);
    assert ReadDigits(t, false) == None;
    assert ParseSigned(t) == None;
  }
}
