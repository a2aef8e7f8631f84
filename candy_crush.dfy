/**
 * The match-3 board of the Candy Crush vocabulary game: an 8×8 grid of candies
 * in six colours, run detection, per-column drop and refill, the cascade that
 * repeats them until no run is left, swaps between adjacent cells that are
 * undone when they make no run, and the moves that answering questions earns.
 */
module CandyCrush {
  import opened Wrappers
  import opened Text
  import opened Answers
  import GameStore

  const GridSize := 8
  const ColorCount := 6
  const InitialMoves := 3

  /** A candy knows its own position; its colour is the index of one of the
      six fruit emojis.  The random id of the source is not modelled. */
  datatype Candy = Candy(row: int, col: int, color: int, isMatched: bool)

  type Grid = seq<seq<Candy>>

  predicate Sized(g: Grid) {
    |g| == GridSize && forall r :: 0 <= r < GridSize ==> |g[r]| == GridSize
  }

  predicate InGrid(r: int, c: int) { 0 <= r < GridSize && 0 <= c < GridSize }

  /** Every candy sits where its `row` and `col` say and has a valid colour. */
  predicate WellFormed(g: Grid) {
    Sized(g)
    && forall r, c :: 0 <= r < GridSize && 0 <= c < GridSize ==>
         g[r][c].row == r && g[r][c].col == c && 0 <= g[r][c].color < ColorCount
  }

  predicate NoneMatched(g: Grid)
    requires Sized(g)
  {
    forall r, c :: 0 <= r < GridSize && 0 <= c < GridSize ==> !g[r][c].isMatched
  }

  /** Three equal colours from `(r, k)` to the right. */
  predicate HWin(g: Grid, r: int, k: int)
    requires Sized(g)
  {
    0 <= r < GridSize && 0 <= k < GridSize - 2
    && g[r][k].color == g[r][k + 1].color && g[r][k].color == g[r][k + 2].color
  }

  /** Three equal colours from `(k, c)` downwards. */
  predicate VWin(g: Grid, k: int, c: int)
    requires Sized(g)
  {
    0 <= k < GridSize - 2 && 0 <= c < GridSize
    && g[k][c].color == g[k + 1][c].color && g[k][c].color == g[k + 2][c].color
  }

  /** Cell `(r, c)` lies inside a horizontal or a vertical run of three. */
  predicate InTriple(g: Grid, r: int, c: int)
    requires Sized(g)
  {
    HWin(g, r, c - 2) || HWin(g, r, c - 1) || HWin(g, r, c)
    || VWin(g, r - 2, c) || VWin(g, r - 1, c) || VWin(g, r, c)
  }

  predicate HasTriple(g: Grid)
    requires Sized(g)
  {
    exists r, k :: 0 <= r < GridSize && 0 <= k < GridSize && (HWin(g, r, k) || VWin(g, r, k))
  }

  /** The grid with every cell of a run flagged as matched. */
  function Marked(g: Grid): (m: Grid)
    requires Sized(g)
    ensures Sized(m)
    ensures forall r, c :: 0 <= r < GridSize && 0 <= c < GridSize ==>
      m[r][c] == g[r][c].(isMatched := g[r][c].isMatched || InTriple(g, r, c))
  {
    seq(GridSize, r requires 0 <= r < GridSize =>
      seq(GridSize, c requires 0 <= c < GridSize =>
        g[r][c].(isMatched := g[r][c].isMatched || InTriple(g, r, c))))
  }

  /** Two sized grids that agree on every cell are equal. */
  lemma GridExt(a: Grid, b: Grid)
    requires Sized(a) && Sized(b)
    requires forall r, c :: 0 <= r < GridSize && 0 <= c < GridSize ==> a[r][c] == b[r][c]
    ensures a == b
  {
    forall r | 0 <= r < GridSize
      ensures a[r] == b[r]
    {
      assert forall c :: 0 <= c < GridSize ==> a[r][c] == b[r][c];
    }
  }

  /** The grid with one cell flagged as matched. */
  function SetMatched(g: Grid, r: int, c: int): (h: Grid)
    requires Sized(g) && InGrid(r, c)
    ensures Sized(h)
    ensures forall i, j :: 0 <= i < GridSize && 0 <= j < GridSize ==>
      h[i][j] == if i == r && j == c then g[i][j].(isMatched := true) else g[i][j]
  {
    g[r := g[r][c := g[r][c].(isMatched := true)]]
  }

  /** The grid with one cell replaced. */
  function SetCell(g: Grid, r: int, c: int, x: Candy): (h: Grid)
    requires Sized(g) && InGrid(r, c)
    ensures Sized(h)
    ensures forall i, j :: 0 <= i < GridSize && 0 <= j < GridSize ==> h[i][j] == if i == r && j == c then x else g[i][j]
  {
    g[r := g[r][c := x]]
  }

  // Progress of the two scans: horizontal windows row by row, vertical
  // windows column by column.
  predicate HDone(r: int, k: int, pr: int, pc: int) { r < pr || (r == pr && k < pc) }
  predicate VDone(k: int, c: int, pr: int, pc: int) { c < pc || (c == pc && k < pr) }

  predicate HCover(g: Grid, r: int, j: int, pr: int, pc: int)
    requires Sized(g)
  {
    (HWin(g, r, j - 2) && HDone(r, j - 2, pr, pc))
    || (HWin(g, r, j - 1) && HDone(r, j - 1, pr, pc))
    || (HWin(g, r, j) && HDone(r, j, pr, pc))
  }

  predicate VCover(g: Grid, i: int, c: int, pr: int, pc: int)
    requires Sized(g)
  {
    (VWin(g, i - 2, c) && VDone(i - 2, c, pr, pc))
    || (VWin(g, i - 1, c) && VDone(i - 1, c, pr, pc))
    || (VWin(g, i, c) && VDone(i, c, pr, pc))
  }

  /** `m` is `g` with the cells of the horizontal windows before `(pr, pc)`
      and the vertical windows before `(vr, vc)` flagged. */
  ghost predicate FlaggedUpTo(g: Grid, m: Grid, pr: int, pc: int, vr: int, vc: int)
    requires Sized(g)
  {
    Sized(m)
    && forall i, j :: 0 <= i < GridSize && 0 <= j < GridSize ==>
         m[i][j] == g[i][j].(isMatched := g[i][j].isMatched || HCover(g, i, j, pr, pc)
                                          || VCover(g, i, j, vr, vc))
  }

  /** `found` tells whether a window before the scan position is a run. */
  ghost predicate FoundUpTo(g: Grid, found: bool, pr: int, pc: int, vr: int, vc: int)
    requires Sized(g)
  {
    (found ==> HasTriple(g))
    && (!found ==> forall i, k :: HDone(i, k, pr, pc) ==> !HWin(g, i, k))
    && (!found ==> forall k, j :: VDone(k, j, vr, vc) ==> !VWin(g, k, j))
  }

  /** One horizontal window more is covered after `(row, col)`. */
  lemma HCoverStep(g: Grid, i: int, j: int, row: int, col: int)
    requires Sized(g) && 0 <= row < GridSize && 0 <= col < GridSize - 2
    ensures HCover(g, i, j, row, col + 1)
      == (HCover(g, i, j, row, col) || (HWin(g, row, col) && i == row && col <= j <= col + 2))
  {
  }

  lemma VCoverStep(g: Grid, i: int, j: int, row: int, col: int)
    requires Sized(g) && 0 <= row < GridSize - 2 && 0 <= col < GridSize
    ensures VCover(g, i, j, row + 1, col)
      == (VCover(g, i, j, row, col) || (VWin(g, row, col) && j == col && row <= i <= row + 2))
  {
  }

  /** Flagging the three cells of a run at `(row, col)` moves the horizontal position on. */
  lemma HFlagStep(g: Grid, m: Grid, row: int, col: int)
    requires Sized(g) && 0 <= row < GridSize && 0 <= col < GridSize - 2
    requires FlaggedUpTo(g, m, row, col, 0, 0)
    ensures HWin(g, row, col) ==>
      FlaggedUpTo(g, SetMatched(SetMatched(SetMatched(m, row, col), row, col + 1), row, col + 2), row, col + 1, 0, 0)
    ensures !HWin(g, row, col) ==> FlaggedUpTo(g, m, row, col + 1, 0, 0)
  {
    forall i, j | 0 <= i < GridSize && 0 <= j < GridSize {
      HCoverStep(g, i, j, row, col);
    }
  }

  lemma VFlagStep(g: Grid, m: Grid, row: int, col: int)
    requires Sized(g) && 0 <= row < GridSize - 2 && 0 <= col < GridSize
    requires FlaggedUpTo(g, m, GridSize, 0, row, col)
    ensures VWin(g, row, col) ==>
      FlaggedUpTo(g, SetMatched(SetMatched(SetMatched(m, row, col), row + 1, col), row + 2, col), GridSize, 0, row + 1, col)
    ensures !VWin(g, row, col) ==> FlaggedUpTo(g, m, GridSize, 0, row + 1, col)
  {
    forall i, j | 0 <= i < GridSize && 0 <= j < GridSize {
      VCoverStep(g, i, j, row, col);
    }
  }

  /** The end of a row is the start of the next one, and the end of a column
      the start of the next one. */
  lemma HRowEnd(g: Grid, m: Grid, found: bool, row: int)
    requires Sized(g) && 0 <= row < GridSize
    requires FlaggedUpTo(g, m, row, GridSize - 2, 0, 0) && FoundUpTo(g, found, row, GridSize - 2, 0, 0)
    ensures FlaggedUpTo(g, m, row + 1, 0, 0, 0) && FoundUpTo(g, found, row + 1, 0, 0, 0)
  {
    var last, next := GridSize - 2, row + 1;
    forall i, j | 0 <= i < GridSize && 0 <= j < GridSize {
      HCoverRowEnd(g, i, j, row, last, next);
    }
  }

  lemma HCoverRowEnd(g: Grid, i: int, j: int, row: int, last: int, next: int)
    requires Sized(g) && 0 <= row < GridSize && last == GridSize - 2 && next == row + 1
    ensures HCover(g, i, j, row, last) == HCover(g, i, j, next, 0)
  {
  }

  lemma VCoverColumnEnd(g: Grid, i: int, j: int, col: int, last: int, next: int)
    requires Sized(g) && 0 <= col < GridSize && last == GridSize - 2 && next == col + 1
    ensures VCover(g, i, j, last, col) == VCover(g, i, j, 0, next)
  {
  }

  /** `found` records whether the window just looked at was a run. */
  lemma HFoundStep(g: Grid, found: bool, row: int, col: int)
    requires Sized(g) && 0 <= row < GridSize && 0 <= col < GridSize - 2
    requires FoundUpTo(g, found, row, col, 0, 0)
    ensures FoundUpTo(g, found || HWin(g, row, col), row, col + 1, 0, 0)
  {
  }

  lemma VFoundStep(g: Grid, found: bool, row: int, col: int)
    requires Sized(g) && 0 <= row < GridSize - 2 && 0 <= col < GridSize
    requires FoundUpTo(g, found, GridSize, 0, row, col)
    ensures FoundUpTo(g, found || VWin(g, row, col), GridSize, 0, row + 1, col)
  {
  }

  lemma VColumnEnd(g: Grid, m: Grid, found: bool, col: int)
    requires Sized(g) && 0 <= col < GridSize
    requires FlaggedUpTo(g, m, GridSize, 0, GridSize - 2, col) && FoundUpTo(g, found, GridSize, 0, GridSize - 2, col)
    ensures FlaggedUpTo(g, m, GridSize, 0, 0, col + 1) && FoundUpTo(g, found, GridSize, 0, 0, col + 1)
  {
    var last, next := GridSize - 2, col + 1;
    forall i, j | 0 <= i < GridSize && 0 <= j < GridSize {
      VCoverColumnEnd(g, i, j, col, last, next);
    }
  }

  /** The horizontal windows of one row. */
  method ScanRow(g: Grid, m0: Grid, found0: bool, row: int) returns (m: Grid, found: bool)
    requires Sized(g) && 0 <= row < GridSize
    requires FlaggedUpTo(g, m0, row, 0, 0, 0) && FoundUpTo(g, found0, row, 0, 0, 0)
    ensures FlaggedUpTo(g, m, row + 1, 0, 0, 0) && FoundUpTo(g, found, row + 1, 0, 0, 0)
  {
    m, found := m0, found0;
    var col := 0;
    while col < GridSize - 2
      invariant 0 <= col <= GridSize - 2
      invariant FlaggedUpTo(g, m, row, col, 0, 0) && FoundUpTo(g, found, row, col, 0, 0)
    {
      m, found := ScanHWindow(g, m, found, row, col);
      col := col + 1;
    }
    HRowEnd(g, m, found, row);
  }

  /** The horizontal window at `(row, col)`: its three cells are flagged
      when they share a colour. */
  method ScanHWindow(g: Grid, m0: Grid, found0: bool, row: int, col: int) returns (m: Grid, found: bool)
    requires Sized(g) && 0 <= row < GridSize && 0 <= col < GridSize - 2
    requires FlaggedUpTo(g, m0, row, col, 0, 0) && FoundUpTo(g, found0, row, col, 0, 0)
    ensures FlaggedUpTo(g, m, row, col + 1, 0, 0) && FoundUpTo(g, found, row, col + 1, 0, 0)
  {
    m, found := m0, found0;
    HFlagStep(g, m, row, col);
    HFoundStep(g, found, row, col);
    var color := m[row][col].color;
    if color == m[row][col + 1].color && color == m[row][col + 2].color {
      assert HWin(g, row, col);
      m := SetMatched(m, row, col);
      m := SetMatched(m, row, col + 1);
      m := SetMatched(m, row, col + 2);
      found := true;
    }
  }

  /** The vertical windows of one column. */
  method ScanColumn(g: Grid, m0: Grid, found0: bool, col: int) returns (m: Grid, found: bool)
    requires Sized(g) && 0 <= col < GridSize
    requires FlaggedUpTo(g, m0, GridSize, 0, 0, col) && FoundUpTo(g, found0, GridSize, 0, 0, col)
    ensures FlaggedUpTo(g, m, GridSize, 0, 0, col + 1) && FoundUpTo(g, found, GridSize, 0, 0, col + 1)
  {
    m, found := m0, found0;
    var row := 0;
    while row < GridSize - 2
      invariant 0 <= row <= GridSize - 2
      invariant FlaggedUpTo(g, m, GridSize, 0, row, col) && FoundUpTo(g, found, GridSize, 0, row, col)
    {
      m, found := ScanVWindow(g, m, found, row, col);
      row := row + 1;
    }
    VColumnEnd(g, m, found, col);
  }

  /** The vertical window at `(row, col)`. */
  method ScanVWindow(g: Grid, m0: Grid, found0: bool, row: int, col: int) returns (m: Grid, found: bool)
    requires Sized(g) && 0 <= row < GridSize - 2 && 0 <= col < GridSize
    requires FlaggedUpTo(g, m0, GridSize, 0, row, col) && FoundUpTo(g, found0, GridSize, 0, row, col)
    ensures FlaggedUpTo(g, m, GridSize, 0, row + 1, col) && FoundUpTo(g, found, GridSize, 0, row + 1, col)
  {
    m, found := m0, found0;
    VFlagStep(g, m, row, col);
    VFoundStep(g, found, row, col);
    var color := m[row][col].color;
    if color == m[row + 1][col].color && color == m[row + 2][col].color {
      assert VWin(g, row, col);
      m := SetMatched(m, row, col);
      m := SetMatched(m, row + 1, col);
      m := SetMatched(m, row + 2, col);
      found := true;
    }
  }

  /** The run detection of `checkMatches` and of each cascade round: on a
      copy of the grid, flag every cell of every horizontal and then every
      vertical window of three equal colours, and report whether there was one. */
  method Scan(g: Grid) returns (marked: Grid, found: bool)
    requires Sized(g)
    ensures marked == Marked(g)
    ensures found == HasTriple(g)
  {
    marked := g;
    found := false;
    var row := 0;
    while row < GridSize
      invariant 0 <= row <= GridSize
      invariant FlaggedUpTo(g, marked, row, 0, 0, 0) && FoundUpTo(g, found, row, 0, 0, 0)
    {
      marked, found := ScanRow(g, marked, found, row);
      row := row + 1;
    }
    var col := 0;
    while col < GridSize
      invariant 0 <= col <= GridSize
      invariant FlaggedUpTo(g, marked, GridSize, 0, 0, col) && FoundUpTo(g, found, GridSize, 0, 0, col)
    {
      marked, found := ScanColumn(g, marked, found, col);
      col := col + 1;
    }
    GridExt(marked, Marked(g));
  }

  // ---------------------------------------------------------------------
  // Counting the matched cells

  function Flag(x: Candy): nat { if x.isMatched then 1 else 0 }

  /** Matched candies of one row. */
  function RowCount(s: seq<Candy>): (n: nat)
    ensures n <= |s|
  {
    if |s| == 0 then 0 else RowCount(s[..|s| - 1]) + Flag(s[|s| - 1])
  }

  /** Matched candies of the rows of `g`. */
  function GridCount(g: seq<seq<Candy>>): (n: nat)
  {
    if |g| == 0 then 0 else GridCount(g[..|g| - 1]) + RowCount(g[|g| - 1])
  }

  /** The `forEach` over rows and candies that counts `isMatched`. */
  method CountMatched(g: Grid) returns (count: nat)
    requires Sized(g)
    ensures count == GridCount(g)
  {
    count := 0;
    var row := 0;
    while row < GridSize
      invariant 0 <= row <= GridSize
      invariant count == GridCount(g[..row])
    {
      var col := 0;
      ghost var before := count;
      while col < GridSize
        invariant 0 <= col <= GridSize
        invariant count == before + RowCount(g[row][..col])
      {
        assert g[row][..col + 1][..col] == g[row][..col];
        if g[row][col].isMatched {
          count := count + 1;
        }
        col := col + 1;
      }
      assert g[row][..GridSize] == g[row];
      assert g[..row + 1][..row] == g[..row];
      row := row + 1;
    }
    assert g[..GridSize] == g;
  }

  /** A grid has at most 64 matched candies. */
  lemma {:induction false} CountBound(g: seq<seq<Candy>>, w: nat)
    requires forall r :: 0 <= r < |g| ==> |g[r]| == w
    ensures GridCount(g) <= |g| * w
  {
    if |g| > 0 {
      CountBound(g[..|g| - 1], w);
    }
  }

  // ---------------------------------------------------------------------
  // Drop and refill

  /** Column `c`, top to bottom. */
  function Column(g: Grid, c: int): (col: seq<Candy>)
    requires Sized(g) && 0 <= c < GridSize
    ensures |col| == GridSize
    ensures forall r :: 0 <= r < GridSize ==> col[r] == g[r][c]
  {
    seq(GridSize, r requires 0 <= r < GridSize => g[r][c])
  }

  /** The unmatched candies of a column, in their top-to-bottom order. */
  function Kept(s: seq<Candy>): (k: seq<Candy>)
    ensures |k| <= |s|
    ensures forall i :: 0 <= i < |k| ==> !k[i].isMatched && k[i] in s
  {
    if |s| == 0 then [] else (if s[0].isMatched then [] else [s[0]]) + Kept(s[1..])
  }

  /** A candy as `createCandy(r, c)` makes it. */
  predicate FreshAt(x: Candy, r: int, c: int) {
    x.row == r && x.col == c && !x.isMatched && 0 <= x.color < ColorCount
  }

  /** Column `c` of `h` is column `c` of `g` after the drop: the unmatched
      candies packed at the bottom in their old order with their `row`
      renumbered, and new candies in exactly the cells above them. */
  ghost predicate ColumnDropped(g: Grid, h: Grid, c: int)
    requires Sized(g) && Sized(h) && 0 <= c < GridSize
  {
    DropOf(Kept(Column(g, c)), h, c)
  }

  /** Column `c` of `h` holds `kept` at the bottom, renumbered, and new
      candies above. */
  ghost predicate DropOf(kept: seq<Candy>, h: Grid, c: int)
    requires Sized(h) && 0 <= c < GridSize && |kept| <= GridSize
  {
    var k := GridSize - |kept|;
    forall r :: 0 <= r < GridSize ==>
      (r < k ==> FreshAt(h[r][c], r, c)) && (k <= r ==> h[r][c] == kept[r - k].(row := r))
  }

  /** `createCandy(row, col, excludeColors)`: a new unmatched candy at that
      position whose colour is drawn from the colours not excluded, or from
      all six when every colour is excluded. */
  method CreateCandy(row: int, col: int, exclude: seq<int>) returns (x: Candy)
    ensures FreshAt(x, row, col)
    ensures (exists k :: 0 <= k < ColorCount && k !in exclude) ==> x.color !in exclude
  {
    var color;
    if exists k :: 0 <= k < ColorCount && k !in exclude {
      color :| 0 <= color < ColorCount && color !in exclude;
    } else {
      color :| 0 <= color < ColorCount;
    }
    x := Candy(row, col, color, false);
  }

  /** Walking up one cell adds that cell in front of what is kept when it is unmatched. */
  lemma KeptStep(col: seq<Candy>, row: int)
    requires 0 <= row < |col|
    ensures Kept(col[row..]) == (if col[row].isMatched then [] else [col[row]]) + Kept(col[row + 1..])
  {
    assert col[row..][1..] == col[row + 1..];
  }

  /** The cells of column `c` from row `lo` down hold `kept`, renumbered. */
  ghost predicate Packed(h: Grid, c: int, lo: int, kept: seq<Candy>)
    requires Sized(h) && 0 <= c < GridSize
  {
    0 <= lo && lo + |kept| == GridSize
    && forall i :: 0 <= i < |kept| ==> h[lo + i][c] == kept[i].(row := lo + i)
  }

  /** Writing one more candy just above a packed run extends the run. */
  lemma PackedStep(h: Grid, h': Grid, c: int, e: int, kept: seq<Candy>, x: Candy)
    requires Sized(h) && Sized(h') && 0 <= c < GridSize && 0 <= e < GridSize
    requires Packed(h, c, e + 1, kept)
    requires forall r :: e < r < GridSize ==> h'[r][c] == h[r][c]
    requires h'[e][c] == x.(row := e)
    ensures Packed(h', c, e, [x] + kept)
  {
    forall i | 0 <= i < |kept| + 1
      ensures h'[e + i][c] == ([x] + kept)[i].(row := e + i)
    {
      if i > 0 {
        assert h'[e + i][c] == h[e + 1 + (i - 1)][c];
      }
    }
  }

  /** The state of the first drop loop once the cells below `row` are done. */
  ghost predicate PackState(g: Grid, h: Grid, c: int, row: int, emptyRow: int, kept: seq<Candy>)
    requires WellFormed(g) && 0 <= c < GridSize
  {
    -1 <= row <= emptyRow < GridSize && Sized(h)
    && kept == Kept(Column(g, c)[row + 1..]) && emptyRow == GridSize - 1 - |kept|
    && Packed(h, c, emptyRow + 1, kept)
    && forall r, j :: 0 <= r < GridSize && 0 <= j < GridSize && (j != c || r <= row) ==> h[r][j] == g[r][j]
  }

  /** One iteration of the first drop loop, at cell `(row, c)`. */
  method PackCell(g: Grid, h0: Grid, c: int, row: int, emptyRow0: int, ghost kept0: seq<Candy>)
    returns (h: Grid, emptyRow: int, ghost kept: seq<Candy>)
    requires WellFormed(g) && 0 <= c < GridSize && 0 <= row
    requires PackState(g, h0, c, row, emptyRow0, kept0)
    ensures (h, emptyRow, kept) == PackNext(g, h0, c, row, emptyRow0, kept0)
  {
    h, emptyRow, kept := h0, emptyRow0, kept0;
    assert h[row][c] == g[row][c];
    if !h[row][c].isMatched {
      if row != emptyRow {
        h := SetCell(h, emptyRow, c, h[row][c].(row := emptyRow));
      }
      kept := [g[row][c]] + kept;
      emptyRow := emptyRow - 1;
    }
  }

  /** The state after the iteration at `(row, c)`: an unmatched candy is
      written at `e` and joins the packed run, a matched one is left. */
  ghost function PackNext(g: Grid, h: Grid, c: int, row: int, e: int, kept: seq<Candy>): (Grid, int, seq<Candy>)
    requires WellFormed(g) && 0 <= c < GridSize && 0 <= row
    requires PackState(g, h, c, row, e, kept)
  {
    if g[row][c].isMatched then (h, e, kept)
    else ((if row != e then SetCell(h, e, c, g[row][c].(row := e)) else h), e - 1, [g[row][c]] + kept)
  }

  /** Each iteration moves the packing invariant one row up. */
  lemma PackNextKeeps(g: Grid, h: Grid, c: int, row: int, e: int, kept: seq<Candy>)
    requires WellFormed(g) && 0 <= c < GridSize && 0 <= row
    requires PackState(g, h, c, row, e, kept)
    ensures var (h', e', kept') := PackNext(g, h, c, row, e, kept); PackState(g, h', c, row - 1, e', kept')
  {
    if g[row][c].isMatched {
      PackSkipped(g, h, c, row, e, kept);
    } else {
      var h' := if row != e then SetCell(h, e, c, g[row][c].(row := e)) else h;
      PackMoved(g, h, h', c, row, e, kept);
    }
  }

  /** An unmatched candy moves down to the `emptyRow` pointer. */
  lemma PackMoved(g: Grid, h0: Grid, h: Grid, c: int, row: int, e: int, kept: seq<Candy>)
    requires WellFormed(g) && 0 <= c < GridSize && 0 <= row
    requires PackState(g, h0, c, row, e, kept) && !g[row][c].isMatched
    requires h == if row != e then SetCell(h0, e, c, g[row][c].(row := e)) else h0
    ensures PackState(g, h, c, row - 1, e - 1, [g[row][c]] + kept)
  {
    var col := Column(g, c);
    KeptStep(col, row);
    PackedStep(h0, h, c, e, kept, col[row]);
  }

  /** A matched candy is left behind. */
  lemma PackSkipped(g: Grid, h: Grid, c: int, row: int, e: int, kept: seq<Candy>)
    requires WellFormed(g) && 0 <= c < GridSize && 0 <= row
    requires PackState(g, h, c, row, e, kept) && g[row][c].isMatched
    ensures PackState(g, h, c, row - 1, e, kept)
  {
    KeptStep(Column(g, c), row);
  }

  /** The first loop of the drop: walking up from the bottom, each unmatched
      candy is written at the `emptyRow` pointer with its new row. */
  method PackColumn(g: Grid, c: int) returns (h: Grid, emptyRow: int)
    requires WellFormed(g) && 0 <= c < GridSize
    ensures Sized(h) && -1 <= emptyRow < GridSize
    ensures Packed(h, c, emptyRow + 1, Kept(Column(g, c)))
    ensures forall r, j :: 0 <= r < GridSize && 0 <= j < GridSize && j != c ==> h[r][j] == g[r][j]
  {
    ghost var kept: seq<Candy> := [];
    h := g;
    emptyRow := GridSize - 1;
    var row := GridSize - 1;
    assert Column(g, c)[row + 1..] == [];
    while row >= 0
      invariant PackState(g, h, c, row, emptyRow, kept)
    {
      PackNextKeeps(g, h, c, row, emptyRow, kept);
      h, emptyRow, kept := PackCell(g, h, c, row, emptyRow, kept);
      row := row - 1;
    }
    assert Column(g, c)[0..] == Column(g, c);
  }

  /** The second loop: new candies in the cells from `emptyRow` up to the top. */
  method RefillColumn(g: Grid, c: int, emptyRow: int) returns (h: Grid)
    requires Sized(g) && 0 <= c < GridSize && -1 <= emptyRow < GridSize
    ensures Sized(h)
    ensures forall r :: 0 <= r <= emptyRow ==> FreshAt(h[r][c], r, c)
    ensures forall r, j :: 0 <= r < GridSize && 0 <= j < GridSize && (j != c || r > emptyRow) ==> h[r][j] == g[r][j]
  {
    h := g;
    var row := emptyRow;
    while row >= 0
      invariant -1 <= row <= emptyRow && Sized(h)
      invariant forall r :: row < r <= emptyRow ==> FreshAt(h[r][c], r, c)
      invariant forall r, j :: 0 <= r < GridSize && 0 <= j < GridSize && (j != c || r > emptyRow || r <= row) ==> h[r][j] == g[r][j]
    {
      var x := CreateCandy(row, c, []);
      h := SetCell(h, row, c, x);
      row := row - 1;
    }
  }

  /** Drop and refill of one column; the other columns are untouched. */
  method DropColumn(g: Grid, c: int) returns (h: Grid)
    requires WellFormed(g) && 0 <= c < GridSize
    ensures Sized(h) && ColumnDropped(g, h, c)
    ensures forall r, j :: 0 <= r < GridSize && 0 <= j < GridSize && j != c ==> h[r][j] == g[r][j]
  {
    var packed, emptyRow := PackColumn(g, c);
    h := RefillColumn(packed, c, emptyRow);
  }

  /** A dropped column holds positioned, unmatched candies of valid colours. */
  lemma ColumnDroppedCells(g: Grid, h: Grid, c: int)
    requires WellFormed(g) && Sized(h) && 0 <= c < GridSize
    requires ColumnDropped(g, h, c)
    ensures forall r :: 0 <= r < GridSize ==> FreshAt(h[r][c], r, c)
  {
    var kept := Kept(Column(g, c));
    var k := GridSize - |kept|;
    forall r | k <= r < GridSize
      ensures FreshAt(h[r][c], r, c)
    {
      assert kept[r - k] in Column(g, c);
    }
  }

  /** `ColumnDropped` only looks at column `c` of either grid. */
  lemma ColumnDroppedFrame(g: Grid, g': Grid, h: Grid, h': Grid, c: int)
    requires Sized(g) && Sized(g') && Sized(h) && Sized(h') && 0 <= c < GridSize
    requires forall r :: 0 <= r < GridSize ==> g[r][c] == g'[r][c] && h[r][c] == h'[r][c]
    requires ColumnDropped(g, h, c)
    ensures ColumnDropped(g', h', c)
  {
    assert Column(g, c) == Column(g', c);
    DropOfFrame(Kept(Column(g, c)), h, h', c);
  }

  lemma DropOfFrame(kept: seq<Candy>, h: Grid, h': Grid, c: int)
    requires Sized(h) && Sized(h') && 0 <= c < GridSize && |kept| <= GridSize
    requires forall r :: 0 <= r < GridSize ==> h[r][c] == h'[r][c]
    requires DropOf(kept, h, c)
    ensures DropOf(kept, h', c)
  {
  }
  /** Every column of `h` is the drop of the same column of `g`. */
  ghost predicate Dropped(g: Grid, h: Grid)
    requires Sized(g) && Sized(h)
  {
    forall c :: 0 <= c < GridSize ==> ColumnDropped(g, h, c)
  }

  /** The removal of matched candies and the refill, column by column, as
      `removeMatchedAndFill` and the body of each cascade round do it. */
  method DropAndRefill(g: Grid) returns (h: Grid)
    requires WellFormed(g)
    ensures Sized(h) && Dropped(g, h)
    ensures WellFormed(h) && NoneMatched(h)
  {
    h := g;
    var col := 0;
    while col < GridSize
      invariant 0 <= col <= GridSize && WellFormed(h)
      invariant forall c :: 0 <= c < col ==> ColumnDropped(g, h, c)
      invariant forall r, c :: 0 <= r < GridSize && 0 <= c < col ==> !h[r][c].isMatched
      invariant forall r, j :: 0 <= r < GridSize && col <= j < GridSize ==> h[r][j] == g[r][j]
    {
      var next := DropColumn(h, col);
      forall c | 0 <= c < col {
        ColumnDroppedFrame(g, g, h, next, c);
      }
      ColumnDroppedFrame(h, g, next, next, col);
      ColumnDroppedCells(g, next, col);
      h := next;
      col := col + 1;
    }
  }

  // ---------------------------------------------------------------------
  // The initial grid

  /** A built row: positioned, unmatched, valid colours, no run of three. */
  ghost predicate RowOk(s: seq<Candy>, row: int) {
    (forall j :: 0 <= j < |s| ==> FreshAt(s[j], row, j))
    && forall j :: 0 <= j < |s| - 2 ==> !(s[j].color == s[j + 1].color && s[j].color == s[j + 2].color)
  }

  /** No column holds the same colour in all three rows. */
  predicate NoVerticalRun(a: seq<Candy>, b: seq<Candy>, c: seq<Candy>) {
    forall j :: 0 <= j < |a| && j < |b| && j < |c| ==>
      !(a[j].color == b[j].color && a[j].color == c[j].color)
  }

  /** No vertical run of three among the built rows. */
  ghost predicate ColumnsOk(g: seq<seq<Candy>>) {
    forall r :: 0 <= r < |g| - 2 ==> NoVerticalRun(g[r], g[r + 1], g[r + 2])
  }

  /** With at most two colours excluded one of the six is still free. */
  lemma FreeColor(exclude: seq<int>)
    requires |exclude| <= 2
    ensures exists k :: 0 <= k < ColorCount && k !in exclude
  {
    if 0 in exclude && 1 in exclude {
      assert 2 !in exclude;
    }
  }

  /** `initializeGrid`: row by row and left to right, each new candy avoids
      the colour of an equal pair directly to its left and of an equal pair
      directly above it, so no run of three is ever completed. */
  method InitializeGrid() returns (g: Grid)
    ensures WellFormed(g) && NoneMatched(g) && !HasTriple(g)
  {
    g := [];
    var row := 0;
    while row < GridSize
      invariant 0 <= row <= GridSize && |g| == row
      invariant forall r :: 0 <= r < row ==> |g[r]| == GridSize && RowOk(g[r], r)
      invariant ColumnsOk(g)
    {
      var cur := BuildRow(g, row);
      g := g + [cur];
      row := row + 1;
    }
    forall r, k | 0 <= r < GridSize && 0 <= k < GridSize
      ensures !HWin(g, r, k) && !VWin(g, r, k)
    {
      assert RowOk(g[r], r);
      if k < GridSize - 2 {
        assert NoVerticalRun(g[k], g[k + 1], g[k + 2]);
      }
    }
  }

  /** Appending a candy that avoids the colour of an equal pair on its left
      keeps the row free of runs. */
  lemma RowOkStep(cur: seq<Candy>, row: int, x: Candy)
    requires RowOk(cur, row) && FreshAt(x, row, |cur|)
    requires |cur| >= 2 && cur[|cur| - 1].color == cur[|cur| - 2].color ==> x.color != cur[|cur| - 1].color
    ensures RowOk(cur + [x], row)
  {
    var s := cur + [x];
    forall j | 0 <= j < |s| - 2
      ensures !(s[j].color == s[j + 1].color && s[j].color == s[j + 2].color)
    {
      if j + 2 < |cur| {
        assert s[j] == cur[j] && s[j + 1] == cur[j + 1] && s[j + 2] == cur[j + 2];
      }
    }
  }

  /** Appending a candy that avoids the colour of an equal pair above it
      keeps the partial row from completing a vertical run. */
  lemma AboveStep(a: seq<Candy>, b: seq<Candy>, cur: seq<Candy>, x: Candy)
    requires |a| == GridSize && |b| == GridSize && |cur| < GridSize
    requires NoVerticalRun(a, b, cur)
    requires a[|cur|].color == b[|cur|].color ==> x.color != b[|cur|].color
    ensures NoVerticalRun(a, b, cur + [x])
  {
    var s := cur + [x];
    forall j | 0 <= j < |s|
      ensures !(a[j].color == b[j].color && a[j].color == s[j].color)
    {
      if j < |cur| {
        assert s[j] == cur[j];
      }
    }
  }

  /** One row of `initializeGrid`, below the rows already built. */
  method BuildRow(g: seq<seq<Candy>>, row: int) returns (cur: seq<Candy>)
    requires 0 <= row < GridSize && |g| == row
    requires forall r :: 0 <= r < row ==> |g[r]| == GridSize && RowOk(g[r], r)
    requires ColumnsOk(g)
    ensures |cur| == GridSize && RowOk(cur, row)
    ensures ColumnsOk(g + [cur])
  {
    cur := [];
    var col := 0;
    while col < GridSize
      invariant 0 <= col <= GridSize && |cur| == col
      invariant RowOk(cur, row)
      invariant row >= 2 ==> NoVerticalRun(g[row - 2], g[row - 1], cur)
    {
      var exclude: seq<int> := [];
      if col >= 2 && cur[col - 1].color == cur[col - 2].color {
        exclude := exclude + [cur[col - 1].color];
      }
      if row >= 2 && g[row - 1][col].color == g[row - 2][col].color {
        exclude := exclude + [g[row - 1][col].color];
      }
      FreeColor(exclude);
      var x := CreateCandy(row, col, exclude);
      RowOkStep(cur, row, x);
      if row >= 2 {
        AboveStep(g[row - 2], g[row - 1], cur, x);
      }
      cur := cur + [x];
      col := col + 1;
    }
    ghost var g' := g + [cur];
    assert forall r :: 0 <= r < row ==> g'[r] == g[r];
  }

  // ---------------------------------------------------------------------
  // Swaps

  /** `swapCandies` on a copy: the two candies trade places and take the
      position fields of their new cells. */
  function Swapped(g: Grid, r1: int, c1: int, r2: int, c2: int): (h: Grid)
    requires Sized(g) && InGrid(r1, c1) && InGrid(r2, c2)
    ensures Sized(h)
    ensures (r1, c1) != (r2, c2) ==>
      h[r1][c1].color == g[r2][c2].color && h[r2][c2].color == g[r1][c1].color
    ensures forall r, c :: 0 <= r < GridSize && 0 <= c < GridSize && (r, c) != (r1, c1) && (r, c) != (r2, c2) ==>
      h[r][c] == g[r][c]
  {
    var temp := g[r1][c1];
    var h1 := SetCell(g, r1, c1, g[r2][c2].(row := r1, col := c1));
    SetCell(h1, r2, c2, temp.(row := r2, col := c2))
  }

  /** A swap keeps the grid well formed and free of matched flags. */
  lemma SwapKeepsShape(g: Grid, r1: int, c1: int, r2: int, c2: int)
    requires WellFormed(g) && InGrid(r1, c1) && InGrid(r2, c2)
    ensures WellFormed(Swapped(g, r1, c1, r2, c2))
    ensures NoneMatched(g) ==> NoneMatched(Swapped(g, r1, c1, r2, c2))
  {
  }

  /** Swapping the same two distinct cells again restores the grid: the
      undo of a swap that makes no run. */
  lemma SwapTwice(g: Grid, r1: int, c1: int, r2: int, c2: int)
    requires WellFormed(g) && InGrid(r1, c1) && InGrid(r2, c2) && (r1, c1) != (r2, c2)
    ensures Swapped(Swapped(g, r1, c1, r2, c2), r1, c1, r2, c2) == g
  {
    var h := Swapped(Swapped(g, r1, c1, r2, c2), r1, c1, r2, c2);
    GridExt(h, g);
  }

  /** Two cells are orthogonal neighbours: |Δrow| + |Δcol| = 1. */
  predicate Adjacent(r1: int, c1: int, r2: int, c2: int) {
    (Abs(r1 - r2) == 1 && c1 == c2) || (r1 == r2 && Abs(c1 - c2) == 1)
  }

  function Abs(x: int): nat { if x < 0 then -x else x }

  // ---------------------------------------------------------------------
  // A run scores at least thirty points

  lemma {:induction false} RowCountAppend(a: seq<Candy>, b: seq<Candy>)
    ensures RowCount(a + b) == RowCount(a) + RowCount(b)
    decreases |b|
  {
    if |b| > 0 {
      assert (a + b)[..|a + b| - 1] == a + b[..|b| - 1];
      RowCountAppend(a, b[..|b| - 1]);
    } else {
      assert a + b == a;
    }
  }

  lemma {:induction false} GridCountAppend(a: seq<seq<Candy>>, b: seq<seq<Candy>>)
    ensures GridCount(a + b) == GridCount(a) + GridCount(b)
    decreases |b|
  {
    if |b| > 0 {
      assert (a + b)[..|a + b| - 1] == a + b[..|b| - 1];
      GridCountAppend(a, b[..|b| - 1]);
    } else {
      assert a + b == a;
    }
  }

  /** A row counts at least its matched cell `j`. */
  lemma RowCountCell(s: seq<Candy>, j: int)
    requires 0 <= j < |s|
    ensures RowCount(s) >= Flag(s[j])
  {
    assert s == s[..j] + [s[j]] + s[j + 1..];
    RowCountAppend(s[..j] + [s[j]], s[j + 1..]);
    RowCountAppend(s[..j], [s[j]]);
    assert [s[j]][..0] == [];
  }

  /** A row counts at least its three cells from `j` on. */
  lemma RowCountWindow(s: seq<Candy>, j: int)
    requires 0 <= j && j + 3 <= |s|
    ensures RowCount(s) >= Flag(s[j]) + Flag(s[j + 1]) + Flag(s[j + 2])
  {
    var w := s[j..j + 3];
    assert s == s[..j] + w + s[j + 3..];
    RowCountAppend(s[..j] + w, s[j + 3..]);
    RowCountAppend(s[..j], w);
    assert w[..2][..1][..0] == [];
    assert w[..2][..1] == [s[j]] && w[..2] == [s[j], s[j + 1]] && w[..3] == w;
  }

  /** A grid counts the rows before `r`, row `r` and the rows after it. */
  lemma GridCountSplit(g: seq<seq<Candy>>, r: int)
    requires 0 <= r < |g|
    ensures GridCount(g) == GridCount(g[..r]) + RowCount(g[r]) + GridCount(g[r + 1..])
  {
    var before, row, after := g[..r], [g[r]], g[r + 1..];
    assert g == before + row + after;
    GridCountAppend(before + row, after);
    GridCountAppend(before, row);
    assert GridCount(row) == RowCount(g[r]) by {
      assert row[..0] == [];
    }
  }

  /** A grid counts at least its rows `r` to `r + 2`. */
  lemma GridCountRows(g: seq<seq<Candy>>, r: int)
    requires 0 <= r && r + 3 <= |g|
    ensures GridCount(g) >= RowCount(g[r]) + RowCount(g[r + 1]) + RowCount(g[r + 2])
  {
    GridCountSplit(g, r);
    var t := g[r + 1..];
    GridCountSplit(t, 0);
    GridCountSplit(t[1..], 0);
  }

  /** A grid counts at least its row `r`. */
  lemma GridCountRow(g: seq<seq<Candy>>, r: int)
    requires 0 <= r < |g|
    ensures GridCount(g) >= RowCount(g[r])
  {
    GridCountSplit(g, r);
  }

  /** Whenever there is a run, at least three candies are flagged, so a
      scoring scan adds at least thirty points. */
  lemma MarkedAtLeastThree(g: Grid)
    requires Sized(g) && HasTriple(g)
    ensures GridCount(Marked(g)) >= 3
  {
    var m := Marked(g);
    var r, k :| 0 <= r < GridSize && 0 <= k < GridSize && (HWin(g, r, k) || VWin(g, r, k));
    if HWin(g, r, k) {
      assert InTriple(g, r, k) && InTriple(g, r, k + 1) && InTriple(g, r, k + 2);
      RowCountWindow(m[r], k);
      GridCountRow(m, r);
    } else {
      assert InTriple(g, r, k) && InTriple(g, r + 1, k) && InTriple(g, r + 2, k);
      RowCountCell(m[r], k);
      RowCountCell(m[r + 1], k);
      RowCountCell(m[r + 2], k);
      GridCountRows(m, r);
    }
  }

  // ---------------------------------------------------------------------
  // The game

  datatype Pos = Pos(row: int, col: int)

  datatype QuestionType = MultipleChoice | Listening | FillBlank | ImageChoice | ImageToVietnamese

  datatype Question = Question(kind: QuestionType, question: string, correctAnswer: string, options: seq<string>)

  /** The verdict of `handleSubmitAnswer`: a fill-in question takes the typed
      answer trimmed and lowered, every other kind the chosen option compared
      exactly. */
  function AnswerCorrectFor(q: Question, userAnswer: string, selectedOption: Option<string>): bool {
    if q.kind == FillBlank then TypedMatches(userAnswer, q.correctAnswer)
    else selectedOption == Some(q.correctAnswer)
  }

  /** The moves after an answer: two more for a right one, one fewer but never
      below zero for a wrong one. */
  function MovesAfterAnswer(moves: int, correct: bool): (m: int)
    requires moves >= 0
    ensures m >= 0
    ensures correct ==> m == moves + 2
    ensures !correct && moves > 0 ==> m == moves - 1
    ensures !correct && moves == 0 ==> m == 0
  {
    if correct then moves + 2 else if moves - 1 < 0 then 0 else moves - 1
  }

  /** A fill-in answer is right whatever its padding and letter case when the
      expected word carries no padding; a choice question needs that very
      option. */
  lemma FillBlankForgiving(q: Question, pad: string, selectedOption: Option<string>)
    requires q.kind == FillBlank && Unpadded(q.correctAnswer)
    requires forall i :: 0 <= i < |pad| ==> IsSpace(pad[i])
    ensures AnswerCorrectFor(q, pad + q.correctAnswer + pad, selectedOption)
    ensures AnswerCorrectFor(q, pad + ToUpper(q.correctAnswer) + pad, selectedOption)
  {
    TypedMatchesOwnAnswer(q.correctAnswer, pad);
  }

  lemma ChoiceNeedsOption(q: Question, userAnswer: string, option: string)
    requires q.kind != FillBlank
    ensures AnswerCorrectFor(q, userAnswer, Some(option)) <==> option == q.correctAnswer
    ensures !AnswerCorrectFor(q, userAnswer, None)
  {
  }

  /** Where the `processMatches` loop stands: not running, about to scan the
      grid it checks, or waiting out the 500 ms before the flagged candies
      are dropped. */
  datatype Cascade = Stopped | ScanNext(gridToCheck: Grid) | DropNext(matched: Grid)

  /** The board part of the game invariant. */
  ghost predicate BoardOk(isGameStarted: bool, isProcessing: bool, grid: Grid, cascade: Cascade) {
    (isGameStarted ==> WellFormed(grid))
    && (isProcessing <==> !cascade.Stopped?)
    && (isProcessing ==> isGameStarted)
    && (isGameStarted && !isProcessing ==> NoneMatched(grid) && !HasTriple(grid))
    && (cascade.ScanNext? ==>
          WellFormed(cascade.gridToCheck) && NoneMatched(cascade.gridToCheck)
          && (grid == cascade.gridToCheck || HasTriple(cascade.gridToCheck)))
    && (cascade.DropNext? ==> grid == cascade.matched)
  }

  /** A scan, and on a run the points for its flagged candies: ten each. */
  method ScanAndScore(g: Grid) returns (marked: Grid, found: bool, points: int)
    requires Sized(g)
    ensures marked == Marked(g) && found == HasTriple(g)
    ensures found ==> points == 10 * GridCount(Marked(g)) && points >= 30
  {
    marked, found := Scan(g);
    points := 0;
    if found {
      var matchCount := CountMatched(marked);
      points := matchCount * 10;
      MarkedAtLeastThree(g);
    }
  }

  /** The question panel: one record for its seven state variables. */
  datatype Quiz = Quiz(
    showQuestion: bool,
    currentQuestion: Option<Question>,
    userAnswer: string,
    selectedOption: Option<string>,
    questionsAnswered: int,
    isSubmitting: bool,
    /** Answer continuations (the 1500 ms timers) not yet run. */
    pendingQuestions: nat)

  const NoQuiz := Quiz(false, None, "", None, 0, false, 0)

  /** The questions shown come from the list, and a pending continuation
      implies a question was shown, so the list is not empty. */
  ghost predicate QuizOk(q: Quiz, questions: seq<Question>) {
    q.questionsAnswered >= 0
    && (q.currentQuestion.Some? ==> q.currentQuestion.value in questions)
    && (q.pendingQuestions > 0 ==> |questions| > 0)
  }

  /** The variables an answer changes. */
  datatype Answering = Answering(moves: int, store: GameStore.GameState, quiz: Quiz)

  /** `handleSubmitAnswer` on values: nothing happens without a question or
      while a submission is pending; otherwise the verdict sets the moves
      and the store, and the question is counted and pending. */
  function AfterAnswer(moves0: int, store0: GameStore.GameState, quiz0: Quiz): Answering
    requires moves0 >= 0
  {
    if quiz0.currentQuestion.None? || quiz0.isSubmitting then Answering(moves0, store0, quiz0)
    else
      var correct := AnswerCorrectFor(quiz0.currentQuestion.value, quiz0.userAnswer, quiz0.selectedOption);
      Answering(MovesAfterAnswer(moves0, correct),
                if correct then GameStore.AnswerCorrect(store0) else GameStore.AnswerIncorrect(store0),
                quiz0.(questionsAnswered := quiz0.questionsAnswered + 1, isSubmitting := true,
                       pendingQuestions := quiz0.pendingQuestions + 1))
  }

  /** A right answer earns two moves and a wrong one costs one, never going
      below zero; the store counts the answer; the question count goes up by
      one and a further question is due. An ignored submission changes
      nothing. */
  lemma AnswerOutcome(moves0: int, store0: GameStore.GameState, quiz0: Quiz)
    requires moves0 >= 0
    ensures var r := AfterAnswer(moves0, store0, quiz0);
      (quiz0.currentQuestion.None? || quiz0.isSubmitting ==> r == Answering(moves0, store0, quiz0))
      && (quiz0.currentQuestion.Some? && !quiz0.isSubmitting ==>
            var correct := AnswerCorrectFor(quiz0.currentQuestion.value, quiz0.userAnswer, quiz0.selectedOption);
            r.moves >= 0
            && (correct ==> r.moves == moves0 + 2 && r.store == GameStore.AnswerCorrect(store0))
            && (!correct ==> r.moves == (if moves0 > 0 then moves0 - 1 else 0)
                             && r.store == GameStore.AnswerIncorrect(store0))
            && r.quiz.questionsAnswered == quiz0.questionsAnswered + 1 && r.quiz.isSubmitting
            && r.quiz.pendingQuestions == quiz0.pendingQuestions + 1
            && r.quiz.currentQuestion == quiz0.currentQuestion)
  {
  }

  /** An answer keeps the moves non-negative and the quiz consistent. */
  lemma AfterAnswerKeepsQuiz(moves0: int, store0: GameStore.GameState, quiz0: Quiz, questions: seq<Question>)
    requires moves0 >= 0 && QuizOk(quiz0, questions)
    ensures AfterAnswer(moves0, store0, quiz0).moves >= 0 && QuizOk(AfterAnswer(moves0, store0, quiz0).quiz, questions)
  {
  }

  /** A grid without runs or flags is a board at rest. */
  lemma BoardAtRest(g: Grid)
    requires WellFormed(g) && NoneMatched(g) && !HasTriple(g)
    ensures BoardOk(true, false, g, Stopped)
  {
  }

  /** Flagging a grid keeps it well formed. */
  lemma MarkedWellFormed(g: Grid)
    requires WellFormed(g)
    ensures WellFormed(Marked(g))
  {
  }

  /** A scan with a run shows the flagged grid and waits for the drop. */
  lemma BoardAfterRun(g: Grid, shown: Grid)
    requires WellFormed(g) && HasTriple(g) && shown == Marked(g)
    ensures BoardOk(true, true, shown, DropNext(shown))
  {
    MarkedWellFormed(g);
  }

  /** A swap with a run shows the flagged grid and queues a scan of the swapped one. */
  lemma BoardAfterSwapRun(g: Grid)
    requires WellFormed(g) && NoneMatched(g) && HasTriple(g)
    ensures BoardOk(true, true, Marked(g), ScanNext(g))
  {
    MarkedWellFormed(g);
  }

  /** The dropped grid is shown and queued for the next scan. */
  lemma BoardAfterDrop(g: Grid)
    requires WellFormed(g) && NoneMatched(g)
    ensures BoardOk(true, true, g, ScanNext(g))
  {
  }

  /** `swapCandies` on the grid values: the swapped grid, and after the
      check either its flagged copy with the points, or the undone swap,
      which is the grid it started from. */
  method SwapAndCheck(g: Grid, r1: int, c1: int, r2: int, c2: int)
    returns (newGrid: Grid, shown: Grid, hasMatch: bool, points: int)
    requires WellFormed(g) && NoneMatched(g) && InGrid(r1, c1) && InGrid(r2, c2) && Adjacent(r1, c1, r2, c2)
    ensures newGrid == Swapped(g, r1, c1, r2, c2)
    ensures WellFormed(newGrid) && NoneMatched(newGrid)
    ensures hasMatch == HasTriple(newGrid)
    ensures hasMatch ==> shown == Marked(newGrid) && points == 10 * GridCount(Marked(newGrid))
    ensures !hasMatch ==> shown == g
  {
    SwapKeepsShape(g, r1, c1, r2, c2);
    newGrid := Swapped(g, r1, c1, r2, c2);
    var marked;
    marked, hasMatch, points := ScanAndScore(newGrid);
    if hasMatch {
      shown := marked;
    } else {
      SwapTwice(g, r1, c1, r2, c2);
      shown := Swapped(newGrid, r1, c1, r2, c2);
    }
  }

  /** The game variables a swap or a cascade step changes. */
  datatype Play = Play(grid: Grid, moves: int, score: int, isProcessing: bool, cascade: Cascade)

  /** What a swap of the neighbours `a` and `b` leaves: with a run, the
      flagged swapped grid, one move spent, ten points per flagged candy and
      a cascade about to scan the swapped grid; without one, the swap is
      undone and the move given back. */
  ghost function AfterSwap(g: Grid, a: Pos, b: Pos, moves0: int, score0: int): Play
    requires Sized(g) && InGrid(a.row, a.col) && InGrid(b.row, b.col)
  {
    var swapped := Swapped(g, a.row, a.col, b.row, b.col);
    if HasTriple(swapped) then
      Play(Marked(swapped), moves0 - 1, score0 + 10 * GridCount(Marked(swapped)), true, ScanNext(swapped))
    else
      Play(g, moves0, score0, false, Stopped)
  }

  /** What one cascade scan of `g` leaves: with a run, the flagged grid,
      the points and the drop due; without one, the grid `g` at rest and the
      cascade over. */
  ghost function AfterScan(g: Grid, moves0: int, score0: int): Play
    requires Sized(g)
  {
    if HasTriple(g) then
      Play(Marked(g), moves0, score0 + 10 * GridCount(Marked(g)), true, DropNext(Marked(g)))
    else
      Play(g, moves0, score0, false, Stopped)
  }

  /** A swap either scores at least thirty points for one move and keeps
      the cascade running, or changes nothing. */
  lemma SwapScoresOrUndoes(g: Grid, a: Pos, b: Pos, moves0: int, score0: int)
    requires Sized(g) && InGrid(a.row, a.col) && InGrid(b.row, b.col)
    ensures var p := AfterSwap(g, a, b, moves0, score0);
      (p.isProcessing ==> p.moves == moves0 - 1 && p.score >= score0 + 30)
      && (!p.isProcessing ==> p.grid == g && p.moves == moves0 && p.score == score0)
  {
    var swapped := Swapped(g, a.row, a.col, b.row, b.col);
    if HasTriple(swapped) {
      MarkedAtLeastThree(swapped);
    }
  }

  /** A scan either scores at least thirty points and leaves the drop due,
      or ends the cascade on the grid it checked. */
  lemma ScanScoresOrStops(g: Grid, moves0: int, score0: int)
    requires Sized(g)
    ensures var p := AfterScan(g, moves0, score0);
      (p.isProcessing ==> p.cascade == DropNext(p.grid) && p.score >= score0 + 30)
      && (!p.isProcessing ==> p.grid == g && p.score == score0 && !HasTriple(g))
  {
    if HasTriple(g) {
      MarkedAtLeastThree(g);
    }
  }

  /** The swap of two neighbours: the class checks beforehand that the
      board is at rest and a move is left. */
  method SwapMove(g: Grid, a: Pos, b: Pos, moves0: int, score0: int) returns (p: Play)
    requires WellFormed(g) && NoneMatched(g)
    requires InGrid(a.row, a.col) && InGrid(b.row, b.col) && Adjacent(a.row, a.col, b.row, b.col)
    ensures p == AfterSwap(g, a, b, moves0, score0)
  {
    var newGrid, shown, hasMatch, points := SwapAndCheck(g, a.row, a.col, b.row, b.col);
    AfterSwapCases(g, a, b, moves0, score0, newGrid);
    if hasMatch {
      p := Play(shown, moves0 - 1, score0 + points, true, ScanNext(newGrid));
    } else {
      p := Play(g, moves0, score0, false, Stopped);
    }
  }

  /** The two outcomes of `AfterSwap`, by whether the swapped grid has a run. */
  lemma AfterSwapCases(g: Grid, a: Pos, b: Pos, moves0: int, score0: int, swapped: Grid)
    requires Sized(g) && InGrid(a.row, a.col) && InGrid(b.row, b.col)
    requires swapped == Swapped(g, a.row, a.col, b.row, b.col)
    ensures HasTriple(swapped) ==>
      AfterSwap(g, a, b, moves0, score0)
        == Play(Marked(swapped), moves0 - 1, score0 + 10 * GridCount(Marked(swapped)), true, ScanNext(swapped))
    ensures !HasTriple(swapped) ==> AfterSwap(g, a, b, moves0, score0) == Play(g, moves0, score0, false, Stopped)
  {
  }

  /** A swap from a board at rest keeps the board invariant. */
  lemma SwapKeepsBoard(g: Grid, a: Pos, b: Pos, moves0: int, score0: int)
    requires WellFormed(g) && NoneMatched(g) && !HasTriple(g) && moves0 > 0
    requires InGrid(a.row, a.col) && InGrid(b.row, b.col) && Adjacent(a.row, a.col, b.row, b.col)
    ensures var p := AfterSwap(g, a, b, moves0, score0);
      p.moves >= 0 && BoardOk(true, p.isProcessing, p.grid, p.cascade)
  {
    SwapKeepsShape(g, a.row, a.col, b.row, b.col);
    var swapped := Swapped(g, a.row, a.col, b.row, b.col);
    if HasTriple(swapped) {
      BoardAfterSwapRun(swapped);
    } else {
      BoardAtRest(g);
    }
  }

  /** One cascade scan of the queued grid `g`. */
  method ScanMove(g: Grid, moves0: int, score0: int) returns (p: Play)
    requires WellFormed(g) && NoneMatched(g)
    ensures p == AfterScan(g, moves0, score0)
  {
    var matchedGrid, foundMatch, points := ScanAndScore(g);
    if foundMatch {
      p := Play(matchedGrid, moves0, score0 + points, true, DropNext(matchedGrid));
    } else {
      p := Play(g, moves0, score0, false, Stopped);
    }
  }

  /** A scan of a queued grid keeps the board invariant; when it ends the
      cascade, the board already showed that grid. */
  lemma ScanKeepsBoard(g: Grid, grid0: Grid, moves0: int, score0: int)
    requires WellFormed(g) && NoneMatched(g) && (grid0 == g || HasTriple(g))
    ensures var p := AfterScan(g, moves0, score0);
      BoardOk(true, p.isProcessing, p.grid, p.cascade) && (!p.isProcessing ==> p.grid == grid0)
  {
    if HasTriple(g) {
      BoardAfterRun(g, Marked(g));
    } else {
      BoardAtRest(g);
    }
  }

  class CandyCrushGame {
    const questions: seq<Question>
    var isGameStarted: bool
    var isGameOver: bool
    var score: int
    var moves: int
    var grid: Grid
    var selected: Option<Pos>
    var isProcessing: bool
    var cascade: Cascade
    var quiz: Quiz
    /** The shared score store. */
    var store: GameStore.GameState

    /** Moves never go negative; a started grid is well formed; at rest it
        has no run and no flag; a running cascade checks grids that are
        well formed and unflagged. */
    ghost predicate Valid()
      reads this
    {
      moves >= 0
      && BoardOk(isGameStarted, isProcessing, grid, cascade)
      && (selected.Some? ==> InGrid(selected.value.row, selected.value.col))
      && QuizOk(quiz, questions)
    }

    constructor(questionsData: seq<Question>, initialStore: GameStore.GameState)
      ensures Valid() && questions == questionsData && store == initialStore
      ensures !isGameStarted && !isGameOver && score == 0 && moves == InitialMoves && grid == []
      ensures selected.None? && !isProcessing && quiz == NoQuiz
    {
      questions := questionsData;
      isGameStarted := false;
      isGameOver := false;
      score := 0;
      moves := InitialMoves;
      grid := [];
      selected := None;
      isProcessing := false;
      cascade := Stopped;
      quiz := NoQuiz;
      store := initialStore;
    }

    /** `startGame`: a fresh grid without runs, score 0, three moves, the
        store reset. */
    method StartGame()
      requires Valid()
      modifies this
      ensures Valid() && isGameStarted && !isGameOver && !isProcessing
      ensures WellFormed(grid) && NoneMatched(grid) && !HasTriple(grid)
      ensures score == 0 && moves == InitialMoves && store == GameStore.Zero
      ensures quiz == old(quiz).(questionsAnswered := 0, showQuestion := false)
      ensures selected == old(selected)
    {
      var newGrid := InitializeGrid();
      BoardAtRest(newGrid);
      grid := newGrid;
      score := 0;
      moves := InitialMoves;
      isGameStarted := true;
      isGameOver := false;
      quiz := quiz.(showQuestion := false, questionsAnswered := 0);
      store := GameStore.ResetGame(store);
      isProcessing := false;
      cascade := Stopped;
    }

    /** `handleCandyClick` together with `swapCandies` and its check.  The
        first click selects; the second swaps when the two cells are
        orthogonal neighbours and a move is left, and always clears the
        selection.  A swap spends a move; if it makes no run it is undone and
        the move given back, otherwise the flagged grid is shown, scored, and
        the cascade starts on the swapped grid. */
    method CandyClick(row: int, col: int)
      requires Valid() && isGameStarted && InGrid(row, col)
      modifies this
      ensures Valid() && isGameStarted && quiz == old(quiz) && store == old(store)
      ensures old(isProcessing) ==>
        grid == old(grid) && selected == old(selected) && moves == old(moves) && score == old(score)
        && cascade == old(cascade)
      ensures !old(isProcessing) && old(selected).None? ==>
        selected == Some(Pos(row, col)) && grid == old(grid) && moves == old(moves) && score == old(score)
        && !isProcessing
      ensures !old(isProcessing) && old(selected).Some? ==> selected.None?
      ensures (!old(isProcessing) && old(selected).Some?
               && !(Adjacent(old(selected).value.row, old(selected).value.col, row, col) && old(moves) > 0)) ==>
        grid == old(grid) && moves == old(moves) && score == old(score) && !isProcessing
      ensures (!old(isProcessing) && old(selected).Some?
               && Adjacent(old(selected).value.row, old(selected).value.col, row, col) && old(moves) > 0) ==>
        Play(grid, moves, score, isProcessing, cascade)
        == AfterSwap(old(grid), old(selected).value, Pos(row, col), old(moves), old(score))
    {
      if isProcessing {
        return;
      }
      if selected.None? {
        selected := Some(Pos(row, col));
        return;
      }
      var from := selected.value;
      if Adjacent(from.row, from.col, row, col) && moves > 0 {
        SwapCandies(from.row, from.col, row, col);
      }
      selected := None;
    }

    /** The swap and, after its 300 ms, `checkMatches` or the undo. */
    method SwapCandies(r1: int, c1: int, r2: int, c2: int)
      requires Valid() && isGameStarted && !isProcessing && moves > 0
      requires InGrid(r1, c1) && InGrid(r2, c2) && Adjacent(r1, c1, r2, c2)
      modifies this
      ensures Valid() && isGameStarted && quiz == old(quiz) && store == old(store) && selected == old(selected)
      ensures Play(grid, moves, score, isProcessing, cascade)
        == AfterSwap(old(grid), Pos(r1, c1), Pos(r2, c2), old(moves), old(score))
    {
      var p := SwapMove(grid, Pos(r1, c1), Pos(r2, c2), moves, score);
      SwapKeepsBoard(grid, Pos(r1, c1), Pos(r2, c2), moves, score);
      grid, moves, score, isProcessing, cascade := p.grid, p.moves, p.score, p.isProcessing, p.cascade;
    }

    /** One scan of the `processMatches` loop: with a run, the flagged grid
        is shown and scored and the drop is due after 500 ms; without one,
        the loop ends. */
    method CascadeScan()
      requires Valid() && cascade.ScanNext?
      modifies this
      ensures Valid() && quiz == old(quiz) && store == old(store)
      ensures moves == old(moves) && selected == old(selected)
      ensures Play(grid, moves, score, isProcessing, cascade) == AfterScan(old(cascade).gridToCheck, old(moves), old(score))
      ensures !isProcessing ==> grid == old(grid)
    {
      var p := ScanMove(cascade.gridToCheck, moves, score);
      ScanKeepsBoard(cascade.gridToCheck, grid, moves, score);
      grid, score, isProcessing, cascade := p.grid, p.score, p.isProcessing, p.cascade;
    }

    /** After the 500 ms: drop and refill; the next scan follows after 300 ms. */
    method CascadeDrop()
      requires Valid() && cascade.DropNext?
      modifies this
      ensures Valid() && isProcessing && quiz == old(quiz) && store == old(store)
      ensures Sized(old(grid)) && Sized(grid) && Dropped(old(grid), grid)
      ensures cascade == ScanNext(grid)
      ensures score == old(score) && moves == old(moves) && selected == old(selected)
    {
      var newGrid := DropAndRefill(cascade.matched);
      BoardAfterDrop(newGrid);
      grid, cascade := newGrid, ScanNext(newGrid);
    }

    /** `getRandomQuestion`: any question of the list. */
    method RandomQuestion() returns (q: Question)
      requires |questions| > 0
      ensures q in questions
    {
      var i :| 0 <= i < |questions|;
      q := questions[i];
    }

    /** `openQuestionModal`.  Like the source, which reads a field of
        `undefined` otherwise, it needs a non-empty question list. */
    method OpenQuestionModal()
      requires Valid() && |questions| > 0
      modifies this
      ensures Valid() && quiz.showQuestion && quiz.currentQuestion.Some? && quiz.currentQuestion.value in questions
      ensures quiz == old(quiz).(showQuestion := true, currentQuestion := quiz.currentQuestion,
                                 userAnswer := "", selectedOption := None, isSubmitting := false)
      ensures grid == old(grid) && moves == old(moves) && score == old(score) && cascade == old(cascade)
      ensures isProcessing == old(isProcessing) && isGameStarted == old(isGameStarted)
      ensures store == old(store) && selected == old(selected)
    {
      var q := RandomQuestion();
      quiz := quiz.(showQuestion := true, currentQuestion := Some(q), userAnswer := "",
                    selectedOption := None, isSubmitting := false);
    }

    method TypeAnswer(text: string)
      modifies this
      ensures quiz == old(quiz).(userAnswer := text)
      ensures grid == old(grid) && moves == old(moves) && score == old(score) && cascade == old(cascade)
      ensures isProcessing == old(isProcessing) && isGameStarted == old(isGameStarted) && selected == old(selected)
      ensures store == old(store)
    {
      quiz := quiz.(userAnswer := text);
    }

    method ChooseOption(option: string)
      modifies this
      ensures quiz == old(quiz).(selectedOption := Some(option))
      ensures grid == old(grid) && moves == old(moves) && score == old(score) && cascade == old(cascade)
      ensures isProcessing == old(isProcessing) && isGameStarted == old(isGameStarted) && selected == old(selected)
      ensures store == old(store)
    {
      quiz := quiz.(selectedOption := Some(option));
    }

    /** `handleSubmitAnswer`: ignored without a question or while a
        submission is pending; otherwise the verdict moves the move count and
        the store, and the next question is due after 1500 ms. */
    method HandleSubmitAnswer()
      requires Valid()
      modifies this
      ensures Valid()
      ensures Answering(moves, store, quiz) == AfterAnswer(old(moves), old(store), old(quiz))
      ensures grid == old(grid) && score == old(score) && cascade == old(cascade) && isProcessing == old(isProcessing)
      ensures isGameStarted == old(isGameStarted) && selected == old(selected)
    {
      var r := AfterAnswer(moves, store, quiz);
      AfterAnswerKeepsQuiz(moves, store, quiz, questions);
      moves, store, quiz := r.moves, r.store, r.quiz;
    }

    /** The 1500 ms continuation of an answer: a new random question with a
        clean answer, and submissions open again. */
    method NextQuestion()
      requires Valid() && quiz.pendingQuestions > 0
      modifies this
      ensures Valid() && quiz.currentQuestion.Some? && quiz.currentQuestion.value in questions
      ensures quiz == old(quiz).(currentQuestion := quiz.currentQuestion, userAnswer := "", selectedOption := None,
                                 isSubmitting := false, pendingQuestions := old(quiz).pendingQuestions - 1)
      ensures grid == old(grid) && moves == old(moves) && score == old(score) && cascade == old(cascade)
      ensures isProcessing == old(isProcessing) && isGameStarted == old(isGameStarted) && selected == old(selected)
      ensures store == old(store)
    {
      var q := RandomQuestion();
      quiz := quiz.(currentQuestion := Some(q), userAnswer := "", selectedOption := None,
                    isSubmitting := false, pendingQuestions := quiz.pendingQuestions - 1);
    }
  }
}
