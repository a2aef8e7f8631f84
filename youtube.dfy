/**
 * The video id of a YouTube address (`getVideoId` of `YoutubeSlide`):
 * the pattern `^.*(youtu.be/|v/|u/\w/|embed/|watch?v=|&v=)([^#&?]*).*`
 * matched against the address, and its second group kept when it is
 * eleven characters long. The regular-expression engine's search is
 * written out: the greedy `^.*` makes the marker the last one that starts
 * before the first line break, and the id is the longest run after it
 * free of `#`, `&` and `?`.
 */
module YouTube {
  import opened Wrappers
  import opened Text

  /** The characters `.` does not match. */
  predicate IsLineTerminator(c: char) {
    c == '\n' || c == '\r' || c == '\U{2028}' || c == '\U{2029}'
  }

  /** `\w` */
  predicate IsWordChar(c: char) {
    ('a' <= c <= 'z') || ('A' <= c <= 'Z') || ('0' <= c <= '9') || c == '_'
  }

  predicate IsStop(c: char) {
    c == '#' || c == '&' || c == '?'
  }

  /** The first line break, or the end: how far `^.*` can reach. */
  function LineEnd(s: string): (n: nat)
    ensures n <= |s| && (n < |s| ==> IsLineTerminator(s[n]))
    ensures forall j :: 0 <= j < n ==> !IsLineTerminator(s[j])
    decreases |s|
  {
    if s == [] || IsLineTerminator(s[0]) then 0 else 1 + LineEnd(s[1..])
  }

  /** The length of the marker alternative matching at `i`, if one does.
      Their first characters differ, so at most one can. */
  function MarkerAt(s: string, i: nat): (r: Option<nat>)
    ensures r.Some? ==> i + r.value <= |s|
  {
    if i > |s| then None
    else
      var t := s[i..];
      if |t| >= 9 && t[..5] == "youtu" && !IsLineTerminator(t[5]) && t[6..9] == "be/" then Some(9)
      else if StartsWith(t, "v/") then Some(2)
      else if |t| >= 4 && t[..2] == "u/" && IsWordChar(t[2]) && t[3] == '/' then Some(4)
      else if StartsWith(t, "embed/") then Some(6)
      else if StartsWith(t, "watch?v=") then Some(8)
      else if StartsWith(t, "&v=") then Some(3)
      else None
  }

  /** The greedy `^.*`: the last position at or before `i` where a marker
      starts. */
  function LastMarker(s: string, i: nat): (r: Option<nat>)
    ensures r.Some? ==> r.value <= i && MarkerAt(s, r.value).Some?
    ensures r.Some? ==> forall j :: r.value < j <= i ==> MarkerAt(s, j).None?
    ensures r.None? ==> forall j :: 0 <= j <= i ==> MarkerAt(s, j).None?
  {
    if MarkerAt(s, i).Some? then Some(i)
    else if i == 0 then None
    else LastMarker(s, i - 1)
  }

  /** `[^#&?]*` from `from`: the length of the longest run without a stop. */
  function FreeRun(s: string, from: nat): (n: nat)
    requires from <= |s|
    ensures from + n <= |s| && (from + n < |s| ==> IsStop(s[from + n]))
    ensures forall j :: from <= j < from + n ==> !IsStop(s[j])
    decreases |s| - from
  {
    if from == |s| || IsStop(s[from]) then 0 else 1 + FreeRun(s, from + 1)
  }

  /** `getVideoId(url)` */
  function VideoId(url: string): Option<string> {
    match LastMarker(url, LineEnd(url))
    case None => None
    case Some(i) =>
      var start := i + MarkerAt(url, i).value;
      var n := FreeRun(url, start);
      if n == 11 then Some(url[start..start + n]) else None
  }

  /** An id, when there is one, is eleven characters with no `#`, `&` or
      `?`; it is the whole run after the last marker before the first line
      break. */
  lemma VideoIdShape(url: string)
    ensures VideoId(url).Some? ==> |VideoId(url).value| == 11
    ensures VideoId(url).Some? ==> forall k :: 0 <= k < 11 ==> !IsStop(VideoId(url).value[k])
    ensures VideoId(url).Some? ==>
      exists i :: 0 <= i <= LineEnd(url) && MarkerAt(url, i).Some?
        && (forall j :: i < j <= LineEnd(url) ==> MarkerAt(url, j).None?)
        && VideoId(url).value == url[i + MarkerAt(url, i).value..i + MarkerAt(url, i).value + 11]
  {
    match LastMarker(url, LineEnd(url))
    case None =>
    case Some(i) =>
      var start := i + MarkerAt(url, i).value;
      if FreeRun(url, start) == 11 {
        assert forall k :: 0 <= k < 11 ==> VideoId(url).value[k] == url[start + k];
      }
  }

  /** Without a marker before the first line break there is no id. */
  lemma NoMarkerNoId(url: string)
    requires forall i :: 0 <= i <= LineEnd(url) ==> MarkerAt(url, i).None?
    ensures VideoId(url) == None
  {
  }

  /** A marker followed by eleven free characters and then the end or a
      stop gives those eleven characters, when no later marker starts
      before a line break. */
  lemma MarkerThenId(url: string, i: nat)
    requires i <= LineEnd(url) && MarkerAt(url, i).Some?
    requires forall j :: i < j <= LineEnd(url) ==> MarkerAt(url, j).None?
    requires FreeRun(url, i + MarkerAt(url, i).value) == 11
    ensures VideoId(url) == Some(url[i + MarkerAt(url, i).value..i + MarkerAt(url, i).value + 11])
  {
    assert LastMarker(url, LineEnd(url)) == Some(i);
  }

  /** The `.` of `youtu.be` is not escaped: any character but a line break
      stands in for it. */
  lemma DotMatchesAnyCharacter(c: char, rest: string)
    requires !IsLineTerminator(c)
    ensures MarkerAt("youtu" + [c] + "be/" + rest, 0) == Some(9)
  {
    var t := "youtu" + [c] + "be/" + rest;
    assert t[0..] == t;
    assert t[..5] == "youtu" && t[5] == c && t[6..9] == "be/";
  }
}
