/**
 * The home buttons of the lesson pages (`HomeButton` in `ui` and in
 * `ActivityControls`): both link to the current path with its last
 * segment cut off, or to the root when nothing is left.
 */
module ParentPath {
  import opened Text

  /** `s.substring(start, end)`: both bounds clamped to the string, and
      swapped when the start is past the end. */
  function Substring(s: string, start: int, end: int): (r: string)
    ensures 0 <= start <= end <= |s| ==> r == s[start..end]
  {
    var a := if start < 0 then 0 else if start > |s| then |s| else start;
    var b := if end < 0 then 0 else if end > |s| then |s| else end;
    if a <= b then s[a..b] else s[b..a]
  }

  /** `pathname.substring(0, pathname.lastIndexOf('/'))` */
  function Parent(pathname: string): (r: string)
    ensures StartsWith(pathname, r)
    ensures '/' !in pathname ==> r == ""
    ensures '/' in pathname ==> |r| < |pathname| && pathname[|r|] == '/'
    ensures '/' in pathname ==> forall j :: |r| < j < |pathname| ==> pathname[j] != '/'
  {
    var r := Substring(pathname, 0, LastIndexOf(pathname, '/'));
    assert pathname[..|r|] == r;
    r
  }

  /** `parentPath || '/'` */
  function LinkTarget(pathname: string): (r: string)
    ensures r == "/" || (r == Parent(pathname) && r != "")
    ensures StartsWith(pathname, r) || r == "/"
  {
    var p := Parent(pathname);
    if p == "" then "/" else p
  }

  /** The last segment goes: `p + "/" + segment` links to `p`. */
  lemma DropsLastSegment(p: string, segment: string)
    requires '/' !in segment
    ensures Parent(p + "/" + segment) == p
  {
    var s := p + "/" + segment;
    assert s[|p|] == '/';
    assert forall j :: |p| < j < |s| ==> s[j] == segment[j - |p| - 1];
    var i := LastIndexOf(s, '/');
    assert i == |p|;
    assert s[..|p|] == p;
  }

  /** A trailing slash drops only the empty last segment. */
  lemma TrailingSlash(p: string)
    ensures Parent(p + "/") == p
  {
    DropsLastSegment(p, "");
    assert p + "/" + "" == p + "/";
  }

  /** A path with no slash, or only a leading one, links to the root. */
  lemma TopLevelLinksToRoot(segment: string)
    requires '/' !in segment
    ensures LinkTarget(segment) == "/" && LinkTarget("/" + segment) == "/"
  {
    DropsLastSegment("", segment);
    assert "" + "/" + segment == "/" + segment;
  }
}
