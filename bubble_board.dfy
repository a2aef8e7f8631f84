/**
 * The board of the Bubble Shooter vocabulary game: ten rows of eight cells,
 * each empty or holding a bubble of one of six colours.  Gravity packs every
 * column at the bottom; clearing removes every group of three or more
 * same-coloured bubbles joined through their edges, found by a depth-first
 * search with an explicit stack; the chain loop repeats clearing until no
 * such group is left.
 */
module BubbleBoard {
  import opened Wrappers

  const Rows := 10
  const Cols := 8
  const ColorCount := 6
  const InitialFilledRows := 4

  /** A bubble knows its own position; its colour is the index of one of the
      six emojis.  The random id of the source is not modelled. */
  datatype Bubble = Bubble(row: int, col: int, color: int)

  type Cell = Option<Bubble>
  type Board = seq<seq<Cell>>

  predicate Sized(b: Board) {
    |b| == Rows && forall r :: 0 <= r < Rows ==> |b[r]| == Cols
  }

  predicate InBoard(r: int, c: int) { 0 <= r < Rows && 0 <= c < Cols }

  /** Every bubble sits where its `row` and `col` say and has a valid colour. */
  predicate WellFormed(b: Board) {
    Sized(b)
    && forall r, c :: 0 <= r < Rows && 0 <= c < Cols && b[r][c].Some? ==>
         b[r][c].value.row == r && b[r][c].value.col == c && 0 <= b[r][c].value.color < ColorCount
  }

  /** Two sized boards that agree on every cell are equal. */
  lemma BoardExt(a: Board, b: Board)
    requires Sized(a) && Sized(b)
    requires forall r, c :: 0 <= r < Rows && 0 <= c < Cols ==> a[r][c] == b[r][c]
    ensures a == b
  {
    forall r | 0 <= r < Rows
      ensures a[r] == b[r]
    {
      assert forall c :: 0 <= c < Cols ==> a[r][c] == b[r][c];
    }
  }

  /** The board with one cell replaced. */
  function SetCell(b: Board, r: int, c: int, x: Cell): (h: Board)
    requires Sized(b) && InBoard(r, c)
    ensures Sized(h)
    ensures forall i, j :: 0 <= i < Rows && 0 <= j < Cols ==> h[i][j] == if i == r && j == c then x else b[i][j]
  {
    b[r := b[r][c := x]]
  }

  // ---------------------------------------------------------------------
  // The first board

  /** One random colour per cell, as the source draws them. */
  predicate Palette(colors: seq<seq<int>>) {
    |colors| == Rows
    && forall r :: 0 <= r < Rows ==>
         |colors[r]| == Cols && forall c :: 0 <= c < Cols ==> 0 <= colors[r][c] < ColorCount
  }

  /** `initialiseBoard`: the top four rows full, the six below empty. */
  function InitialBoard(colors: seq<seq<int>>): (b: Board)
    requires Palette(colors)
    ensures WellFormed(b)
    ensures forall r, c :: 0 <= r < Rows && 0 <= c < Cols ==> (b[r][c].Some? <==> r < InitialFilledRows)
    ensures forall r, c :: 0 <= r < InitialFilledRows && 0 <= c < Cols ==> b[r][c].value.color == colors[r][c]
  {
    seq(Rows, r requires 0 <= r < Rows =>
      seq(Cols, c requires 0 <= c < Cols =>
        if r < InitialFilledRows then Some(Bubble(r, c, colors[r][c])) else None))
  }

  // ---------------------------------------------------------------------
  // Gravity

  /** Column `c` from top to bottom. */
  function Column(b: Board, c: int): (s: seq<Cell>)
    requires Sized(b) && 0 <= c < Cols
    ensures |s| == Rows && forall r :: 0 <= r < Rows ==> s[r] == b[r][c]
  {
    seq(Rows, r requires 0 <= r < Rows => b[r][c])
  }

  /** The bubbles of a column, top to bottom. */
  function Present(s: seq<Cell>): (k: seq<Bubble>)
    ensures |k| <= |s|
    decreases |s|
  {
    if s == [] then [] else (if s[0].Some? then [s[0].value] else []) + Present(s[1..])
  }

  /** Reading the bubbles from position `i` on. */
  lemma PresentFrom(s: seq<Cell>, i: int)
    requires 0 <= i < |s|
    ensures Present(s[i..]) == (if s[i].Some? then [s[i].value] else []) + Present(s[i + 1..])
  {
    assert s[i..][1..] == s[i + 1..];
  }

  /** The cell at row `r` of column `c` once the bubbles `k` are packed at
      the bottom, each taking its new row and column. */
  function PackedCell(k: seq<Bubble>, r: int, c: int): Cell
    requires |k| <= Rows && 0 <= r < Rows
  {
    if r < Rows - |k| then None else Some(k[r - (Rows - |k|)].(row := r, col := c))
  }

  /** The board `applyGravity` computes: each column's bubbles packed at the
      bottom in their order. */
  function Gravity(b: Board): (g: Board)
    requires Sized(b)
    ensures Sized(g)
    ensures forall r, c :: 0 <= r < Rows && 0 <= c < Cols ==> g[r][c] == PackedCell(Present(Column(b, c)), r, c)
  {
    seq(Rows, r requires 0 <= r < Rows =>
      seq(Cols, c requires 0 <= c < Cols => PackedCell(Present(Column(b, c)), r, c)))
  }

  /** Column `c` of `nb` holds the bubbles `k` packed at the bottom. */
  ghost predicate PackedColumn(nb: Board, c: int, k: seq<Bubble>)
    requires Sized(nb) && 0 <= c < Cols && |k| <= Rows
  {
    forall r :: 0 <= r < Rows ==> nb[r][c] == PackedCell(k, r, c)
  }

  /** One more bubble from above goes into the write row. */
  lemma PackStep(nb: Board, c: int, k: seq<Bubble>, x: Bubble, writeRow: int)
    requires Sized(nb) && 0 <= c < Cols && |k| < Rows && writeRow == Rows - 1 - |k|
    requires PackedColumn(nb, c, k)
    ensures PackedColumn(SetCell(nb, writeRow, c, Some(x.(row := writeRow, col := c))), c, [x] + k)
  {
  }

  /** The state of `applyGravity` inside column `col`, having read the rows
      below `row`: earlier columns are done, later ones still empty. */
  ghost predicate GravityState(b: Board, nb: Board, col: int, row: int, writeRow: int)
    requires Sized(b) && 0 <= col < Cols && -1 <= row < Rows
  {
    var k := Present(Column(b, col)[row + 1..]);
    Sized(nb) && writeRow == Rows - 1 - |k|
    && PackedColumn(nb, col, k)
    && (forall r, c :: 0 <= r < Rows && 0 <= c < col ==> nb[r][c] == PackedCell(Present(Column(b, c)), r, c))
    && (forall r, c :: 0 <= r < Rows && col < c < Cols ==> nb[r][c] == None)
  }

  /** One row of the inner loop of `applyGravity`. */
  method GravityRow(b: Board, nb0: Board, col: int, row: int, writeRow0: int)
    returns (nb: Board, writeRow: int)
    requires Sized(b) && 0 <= col < Cols && 0 <= row < Rows
    requires GravityState(b, nb0, col, row, writeRow0)
    ensures GravityState(b, nb, col, row - 1, writeRow)
  {
    ghost var s := Column(b, col);
    ghost var k := Present(s[row + 1..]);
    PresentFrom(s, row);
    nb, writeRow := nb0, writeRow0;
    var bubble := b[row][col];
    if bubble.Some? {
      PackStep(nb, col, k, bubble.value, writeRow);
      nb := SetCell(nb, writeRow, col, Some(bubble.value.(row := writeRow, col := col)));
      writeRow := writeRow - 1;
    }
  }

  /** The empty board `applyGravity` starts from. */
  function EmptyBoard(): (e: Board)
    ensures Sized(e) && forall r, c :: 0 <= r < Rows && 0 <= c < Cols ==> e[r][c] == None
  {
    seq(Rows, r => seq(Cols, c => None))
  }

  /** `applyGravity`: for every column, a write row walks up from the
      bottom and receives each bubble met while reading the column upwards. */
  method ApplyGravity(b: Board) returns (nb: Board)
    requires Sized(b)
    ensures nb == Gravity(b)
  {
    nb := EmptyBoard();
    var col := 0;
    while col < Cols
      invariant 0 <= col <= Cols && Sized(nb)
      invariant forall r, c :: 0 <= r < Rows && 0 <= c < col ==> nb[r][c] == PackedCell(Present(Column(b, c)), r, c)
      invariant forall r, c :: 0 <= r < Rows && col <= c < Cols ==> nb[r][c] == None
    {
      var writeRow := Rows - 1;
      var row := Rows - 1;
      assert Column(b, col)[row + 1..] == [];
      while row >= 0
        invariant -1 <= row < Rows
        invariant GravityState(b, nb, col, row, writeRow)
      {
        nb, writeRow := GravityRow(b, nb, col, row, writeRow);
        row := row - 1;
      }
      assert Column(b, col)[0..] == Column(b, col);
      col := col + 1;
    }
    BoardExt(nb, Gravity(b));
  }

  // ---------------------------------------------------------------------
  // What gravity keeps

  /** The bubbles `k` moved to consecutive rows from `top` on, in column `c`. */
  function Relabel(k: seq<Bubble>, top: int, c: int): (m: seq<Bubble>)
    ensures |m| == |k|
  {
    seq(|k|, i requires 0 <= i < |k| => k[i].(row := top + i, col := c))
  }

  /** Column `c` holding the bubbles `k` packed at the bottom. */
  function PackedCol(k: seq<Bubble>, c: int): (s: seq<Cell>)
    requires |k| <= Rows
    ensures |s| == Rows && forall r :: 0 <= r < Rows ==> s[r] == PackedCell(k, r, c)
  {
    seq(Rows, r requires 0 <= r < Rows => PackedCell(k, r, c))
  }

  /** One more bubble in front of a relabelled run. */
  lemma RelabelCons(tail: seq<Bubble>, j: int, c: int)
    requires |tail| > 0
    ensures [tail[0].(row := j, col := c)] + Relabel(tail[1..], j + 1, c) == Relabel(tail, j, c)
  {
  }

  /** Reading a packed column from row `j` down. */
  lemma {:induction false} PackedPresent(k: seq<Bubble>, c: int, j: int)
    requires |k| <= Rows && 0 <= j <= Rows
    ensures j <= Rows - |k| ==> Present(PackedCol(k, c)[j..]) == Relabel(k, Rows - |k|, c)
    ensures j >= Rows - |k| ==> Present(PackedCol(k, c)[j..]) == Relabel(k[j - (Rows - |k|)..], j, c)
    decreases Rows - j
  {
    var s := PackedCol(k, c);
    var off := Rows - |k|;
    if j == Rows {
      assert s[j..] == [];
      assert k[j - off..] == [];
    } else {
      PackedPresent(k, c, j + 1);
      PresentFrom(s, j);
      if j >= off {
        var tail := k[j - off..];
        assert tail[1..] == k[j + 1 - off..];
        assert s[j] == Some(tail[0].(row := j, col := c));
        RelabelCons(tail, j, c);
        if j == off {
          assert tail == k;
        }
      } else {
        assert s[j] == None;
      }
    }
  }

  /** `applyGravity` keeps each column's bubbles, their order and their
      colours, and gives each its new row and column: the column reads as the
      same bubbles relabelled into the bottom rows. */
  lemma GravityColumn(b: Board, c: int)
    requires Sized(b) && 0 <= c < Cols
    ensures var k := Present(Column(b, c));
      Present(Column(Gravity(b), c)) == Relabel(k, Rows - |k|, c)
  {
    var k := Present(Column(b, c));
    assert Column(Gravity(b), c) == PackedCol(k, c);
    PackedPresent(k, c, 0);
    assert PackedCol(k, c)[0..] == PackedCol(k, c);
  }

  /** Below a bubble, every cell of its column holds a bubble. */
  ghost predicate Settled(b: Board)
    requires Sized(b)
  {
    forall r1, r2, c :: 0 <= r1 < r2 < Rows && 0 <= c < Cols && b[r1][c].Some? ==> b[r2][c].Some?
  }

  /** After gravity no bubble sits above an empty cell. */
  lemma GravitySettles(b: Board)
    requires Sized(b)
    ensures Settled(Gravity(b))
  {
  }

  /** The bubbles of a column of a well-formed board have valid colours. */
  lemma {:induction false} PresentColors(s: seq<Cell>)
    requires forall i :: 0 <= i < |s| && s[i].Some? ==> 0 <= s[i].value.color < ColorCount
    ensures forall i :: 0 <= i < |Present(s)| ==> 0 <= Present(s)[i].color < ColorCount
    decreases |s|
  {
    if s != [] {
      PresentColors(s[1..]);
    }
  }

  /** Gravity keeps a board well formed. */
  lemma GravityWellFormed(b: Board)
    requires WellFormed(b)
    ensures WellFormed(Gravity(b))
  {
    forall c | 0 <= c < Cols {
      PresentColors(Column(b, c));
    }
  }

  // ---------------------------------------------------------------------
  // Same-colour groups

  /** A cell position, the key of the source's `visited` set. */
  datatype Pos = Pos(row: int, col: int)

  /** Every position of the board. */
  function AllCells(): set<Pos> {
    set r, c | 0 <= r < Rows && 0 <= c < Cols :: Pos(r, c)
  }

  lemma InAllCells(p: Pos)
    requires InBoard(p.row, p.col)
    ensures p in AllCells()
  {
    assert p == Pos(p.row, p.col);
  }

  predicate Occupied(b: Board, p: Pos)
    requires Sized(b)
  {
    InBoard(p.row, p.col) && b[p.row][p.col].Some?
  }

  /** Edge neighbours: one step up, down, left or right. */
  predicate Adjacent(p: Pos, q: Pos) {
    ((p.row - q.row == 1 || q.row - p.row == 1) && p.col == q.col)
    || ((p.col - q.col == 1 || q.col - p.col == 1) && p.row == q.row)
  }

  /** Two neighbouring bubbles of the same colour. */
  predicate Link(b: Board, p: Pos, q: Pos)
    requires Sized(b)
  {
    Occupied(b, p) && Occupied(b, q) && Adjacent(p, q)
    && b[p.row][p.col].value.color == b[q.row][q.col].value.color
  }

  /** A walk over bubbles, each step to a same-coloured neighbour. */
  ghost predicate IsPath(b: Board, path: seq<Pos>)
    requires Sized(b)
  {
    |path| > 0 && Occupied(b, path[0])
    && forall i :: 0 <= i < |path| - 1 ==> Link(b, path[i], path[i + 1])
  }

  ghost predicate Connected(b: Board, p: Pos, q: Pos)
    requires Sized(b)
  {
    exists path :: IsPath(b, path) && path[0] == p && path[|path| - 1] == q
  }

  /** The group of bubble `s`: every bubble reached from it through
      same-coloured neighbours. */
  ghost function Component(b: Board, s: Pos): set<Pos>
    requires Sized(b)
  {
    set p | p in AllCells() && Connected(b, s, p)
  }

  /** A set of bubbles that every link out of it leads back into. */
  ghost predicate Closed(b: Board, v: set<Pos>)
    requires Sized(b)
  {
    forall p, q :: p in v && Link(b, p, q) ==> q in v
  }

  lemma ConnectedRefl(b: Board, p: Pos)
    requires Sized(b) && Occupied(b, p)
    ensures Connected(b, p, p) && p in Component(b, p)
  {
    assert IsPath(b, [p]);
    InAllCells(p);
  }

  /** A link extends a walk. */
  lemma ConnectedStep(b: Board, s: Pos, p: Pos, q: Pos)
    requires Sized(b) && Connected(b, s, p) && Link(b, p, q)
    ensures Connected(b, s, q) && q in Component(b, s)
  {
    var path :| IsPath(b, path) && path[0] == s && path[|path| - 1] == p;
    var longer := path + [q];
    assert forall i :: 0 <= i < |longer| - 1 ==> longer[i] == path[i] || i == |path| - 1;
    assert IsPath(b, longer);
    InAllCells(q);
  }

  /** Every bubble on a walk from a member of a closed set is in the set. */
  lemma {:induction false} PathStaysClosed(b: Board, v: set<Pos>, path: seq<Pos>, n: nat)
    requires Sized(b) && Closed(b, v) && IsPath(b, path) && path[0] in v
    requires n < |path|
    ensures path[n] in v
  {
    if n > 0 {
      PathStaysClosed(b, v, path, n - 1);
      assert Link(b, path[n - 1], path[n]);
    }
  }

  /** A closed set holding `s` holds its whole group. */
  lemma ClosedHoldsComponent(b: Board, v: set<Pos>, s: Pos)
    requires Sized(b) && Closed(b, v) && s in v
    ensures Component(b, s) <= v
  {
    forall q | q in Component(b, s)
      ensures q in v
    {
      var path :| IsPath(b, path) && path[0] == s && path[|path| - 1] == q;
      PathStaysClosed(b, v, path, |path| - 1);
    }
  }

  /** Links go both ways. */
  lemma LinkSym(b: Board, p: Pos, q: Pos)
    requires Sized(b) && Link(b, p, q)
    ensures Link(b, q, p)
  {
  }

  /** A group is closed. */
  lemma ComponentClosed(b: Board, s: Pos)
    requires Sized(b)
    ensures Closed(b, Component(b, s))
  {
    forall p, q | p in Component(b, s) && Link(b, p, q)
      ensures q in Component(b, s)
    {
      ConnectedStep(b, s, p, q);
    }
  }

  /** A bubble outside a closed set has its whole group outside it. */
  lemma ComponentAvoidsClosed(b: Board, v: set<Pos>, s: Pos)
    requires Sized(b) && Closed(b, v) && s !in v
    ensures Component(b, s) * v == {}
  {
    forall q | q in Component(b, s) && q in v
      ensures false
    {
      var path :| IsPath(b, path) && path[0] == s && path[|path| - 1] == q;
      ReversedPathReaches(b, path, v);
    }
  }

  /** Walking a path backwards from a member of a closed set reaches its start. */
  lemma {:induction false} ReversedPathReaches(b: Board, path: seq<Pos>, v: set<Pos>)
    requires Sized(b) && Closed(b, v) && IsPath(b, path) && path[|path| - 1] in v
    ensures path[0] in v
    decreases |path|
  {
    if |path| > 1 {
      var shorter := path[..|path| - 1];
      assert Link(b, path[|path| - 2], path[|path| - 1]);
      LinkSym(b, path[|path| - 2], path[|path| - 1]);
      assert forall i :: 0 <= i < |shorter| ==> shorter[i] == path[i];
      assert IsPath(b, shorter);
      ReversedPathReaches(b, shorter, v);
    }
  }

  /** Every member of a group has the same group. */
  lemma ComponentOfMember(b: Board, s: Pos, q: Pos)
    requires Sized(b) && q in Component(b, s)
    ensures Component(b, q) == Component(b, s)
  {
    ComponentClosed(b, s);
    ClosedHoldsComponent(b, Component(b, s), q);
    ComponentClosed(b, q);
    assert s in Component(b, q) by {
      var path :| IsPath(b, path) && path[0] == s && path[|path| - 1] == q;
      if |path| > 1 {
        assert Link(b, path[|path| - 2], path[|path| - 1]);
      }
      ConnectedRefl(b, q);
      ReversedPathReaches(b, path, Component(b, q));
    }
    ClosedHoldsComponent(b, Component(b, q), s);
  }

  /** Both ends of a walk are bubbles. */
  lemma ConnectedEnds(b: Board, p: Pos, q: Pos)
    requires Sized(b) && Connected(b, p, q)
    ensures Occupied(b, p) && Occupied(b, q)
  {
    var path :| IsPath(b, path) && path[0] == p && path[|path| - 1] == q;
    if |path| > 1 {
      assert Link(b, path[|path| - 2], path[|path| - 1]);
    }
  }

  /** The members of a group are bubbles, all of the same colour. */
  lemma ComponentOccupied(b: Board, s: Pos, q: Pos)
    requires Sized(b) && q in Component(b, s)
    ensures Occupied(b, q) && Occupied(b, s)
  {
    ConnectedEnds(b, s, q);
  }

  // ---------------------------------------------------------------------
  // The depth-first search of `findAndClearMatches`

  function Elems<T>(s: seq<T>): set<T> {
    set x | x in s
  }

  predicate NoDup<T(==)>(s: seq<T>) {
    forall i, j :: 0 <= i < j < |s| ==> s[i] != s[j]
  }

  /** A sequence without repetitions is as long as its set of elements. */
  lemma {:induction false} NoDupCard<T>(s: seq<T>)
    requires NoDup(s)
    ensures |Elems(s)| == |s|
  {
    if s != [] {
      var init := s[..|s| - 1];
      assert NoDup(init);
      NoDupCard(init);
      assert Elems(s) == Elems(init) + {s[|s| - 1]};
      assert s[|s| - 1] !in Elems(init);
    }
  }

  /** The four directions, in the order the source explores them. */
  const DirRows: seq<int> := [1, -1, 0, 0]
  const DirCols: seq<int> := [0, 0, 1, -1]

  function Toward(p: Pos, d: int): Pos
    requires 0 <= d < 4
  {
    Pos(p.row + DirRows[d], p.col + DirCols[d])
  }

  /** Every neighbour lies in one of the four directions. */
  lemma AdjacentToward(p: Pos, q: Pos)
    requires Adjacent(p, q)
    ensures exists d :: 0 <= d < 4 && q == Toward(p, d)
  {
    if q.row == p.row + 1 { assert q == Toward(p, 0); }
    else if q.row == p.row - 1 { assert q == Toward(p, 1); }
    else if q.col == p.col + 1 { assert q == Toward(p, 2); }
    else { assert q == Toward(p, 3); }
  }

  /** What the search keeps true: `visited` is the starting set plus what
      is on the stack or in the cluster; those lie in the group of `s`, never
      twice; and every link out of the cluster, apart from the cell being
      expanded, ends in `visited`. */
  ghost predicate FloodCore(b: Board, s: Pos, visited0: set<Pos>, visited: set<Pos>,
                            stack: seq<Pos>, cluster: seq<Pos>)
    requires Sized(b)
  {
    visited == visited0 + Elems(stack) + Elems(cluster)
    && NoDup(stack) && NoDup(cluster) && Elems(stack) * Elems(cluster) == {}
    && Elems(stack) + Elems(cluster) <= Component(b, s)
    && s in Elems(stack) + Elems(cluster)
    && Component(b, s) * visited0 == {}
  }

  ghost predicate Expanded(b: Board, visited: set<Pos>, done: seq<Pos>)
    requires Sized(b)
  {
    forall p, q :: p in done && Link(b, p, q) ==> q in visited
  }

  lemma ExpandedGrows(b: Board, v: set<Pos>, v': set<Pos>, done: seq<Pos>)
    requires Sized(b) && Expanded(b, v, done) && v <= v'
    ensures Expanded(b, v', done)
  {
  }

  /** One direction of the expansion of `cell`: an unvisited neighbour of
      the same colour is marked and pushed. */
  method Explore(b: Board, ghost s: Pos, ghost visited0: set<Pos>, cell: Pos, d: int,
                 visited: set<Pos>, stack: seq<Pos>, ghost cluster: seq<Pos>)
    returns (visited': set<Pos>, stack': seq<Pos>)
    requires Sized(b) && 0 <= d < 4 && cell in Elems(cluster) && Occupied(b, cell)
    requires FloodCore(b, s, visited0, visited, stack, cluster)
    ensures FloodCore(b, s, visited0, visited', stack', cluster)
    ensures visited <= visited' && (Link(b, cell, Toward(cell, d)) ==> Toward(cell, d) in visited')
    ensures (visited' == visited && stack' == stack)
      || (visited' == visited + {Toward(cell, d)} && Toward(cell, d) !in visited && InBoard(Toward(cell, d).row, Toward(cell, d).col))
  {
    visited', stack' := visited, stack;
    var next := Toward(cell, d);
    if next.row < 0 || next.row >= Rows || next.col < 0 || next.col >= Cols {
      return;
    }
    var neighbour := b[next.row][next.col];
    if neighbour.None? || neighbour.value.color != b[cell.row][cell.col].value.color {
      return;
    }
    if next in visited {
      return;
    }
    assert Link(b, cell, next);
    ConnectedStep(b, s, cell, next);
    visited' := visited + {next};
    stack' := stack + [next];
    assert Elems(stack') == Elems(stack) + {next};
  }

  /** Expanding the cell on top of the stack: it moves to the cluster and
      its four neighbours are explored. */
  method ExpandTop(b: Board, ghost s: Pos, ghost visited0: set<Pos>,
                   visited: set<Pos>, stack: seq<Pos>, cluster: seq<Pos>)
    returns (visited': set<Pos>, stack': seq<Pos>, cluster': seq<Pos>)
    requires Sized(b) && |stack| > 0
    requires FloodCore(b, s, visited0, visited, stack, cluster) && Expanded(b, visited, cluster)
    ensures FloodCore(b, s, visited0, visited', stack', cluster') && Expanded(b, visited', cluster')
    ensures AllCells() - visited' < AllCells() - visited
      || (visited' == visited && |stack'| < |stack|)
  {
    var cell := stack[|stack| - 1];
    stack' := stack[..|stack| - 1];
    assert Elems(stack) == Elems(stack') + {cell};
    assert NoDup(stack');
    ComponentOccupied(b, s, cell);
    cluster' := cluster + [cell];
    assert Elems(cluster') == Elems(cluster) + {cell};
    visited' := visited;
    ghost var grew := false;
    var d := 0;
    while d < 4
      invariant 0 <= d <= 4
      invariant FloodCore(b, s, visited0, visited', stack', cluster')
      invariant visited <= visited'
      invariant Expanded(b, visited', cluster)
      invariant DirsDone(b, cell, d, visited')
      invariant grew ==> AllCells() - visited' < AllCells() - visited
      invariant !grew ==> visited' == visited && |stack'| < |stack|
    {
      ghost var before := visited';
      visited', stack' := Explore(b, s, visited0, cell, d, visited', stack', cluster');
      ExpandedGrows(b, before, visited', cluster);
      DirStep(b, cell, d, before, visited');
      if visited' != before {
        InAllCells(Toward(cell, d));
        grew := true;
      }
      d := d + 1;
    }
    AllDirsDone(b, cell, visited');
  }

  /** The links from `cell` in the first `d` directions end in `v`. */
  ghost predicate DirsDone(b: Board, cell: Pos, d: int, v: set<Pos>)
    requires Sized(b)
  {
    forall e :: 0 <= e < d && e < 4 && Link(b, cell, Toward(cell, e)) ==> Toward(cell, e) in v
  }

  lemma DirStep(b: Board, cell: Pos, d: int, v: set<Pos>, v': set<Pos>)
    requires Sized(b) && 0 <= d < 4 && DirsDone(b, cell, d, v) && v <= v'
    requires Link(b, cell, Toward(cell, d)) ==> Toward(cell, d) in v'
    ensures DirsDone(b, cell, d + 1, v')
  {
  }

  lemma AllDirsDone(b: Board, cell: Pos, v: set<Pos>)
    requires Sized(b) && DirsDone(b, cell, 4, v)
    ensures forall q :: Link(b, cell, q) ==> q in v
  {
    forall q | Link(b, cell, q)
      ensures q in v
    {
      AdjacentToward(cell, q);
    }
  }

  /** The search from bubble `s`, which the earlier searches have not
      reached: the cluster it returns is exactly the group of `s`, each cell
      once, and all of them are marked visited. */
  method Flood(b: Board, s: Pos, visited0: set<Pos>) returns (cluster: seq<Pos>, visited: set<Pos>)
    requires Sized(b) && Occupied(b, s) && s !in visited0 && Closed(b, visited0)
    ensures Elems(cluster) == Component(b, s) && NoDup(cluster)
    ensures visited == visited0 + Component(b, s)
  {
    ComponentAvoidsClosed(b, visited0, s);
    ConnectedRefl(b, s);
    var stack := [s];
    cluster := [];
    visited := visited0 + {s};
    assert Elems(stack) == {s};
    while |stack| > 0
      invariant FloodCore(b, s, visited0, visited, stack, cluster) && Expanded(b, visited, cluster)
      decreases AllCells() - visited, |stack|
    {
      visited, stack, cluster := ExpandTop(b, s, visited0, visited, stack, cluster);
    }
    FloodDone(b, s, visited0, visited, cluster);
  }

  /** With the stack empty, the cluster is closed, hence the whole group. */
  lemma FloodDone(b: Board, s: Pos, visited0: set<Pos>, visited: set<Pos>, cluster: seq<Pos>)
    requires Sized(b)
    requires FloodCore(b, s, visited0, visited, [], cluster) && Expanded(b, visited, cluster)
    ensures Elems(cluster) == Component(b, s)
  {
    var empty: seq<Pos> := [];
    assert Elems(empty) == {};
    forall p, q | p in Elems(cluster) && Link(b, p, q)
      ensures q in Elems(cluster)
    {
      ConnectedStep(b, s, p, q);
    }
    ClosedHoldsComponent(b, Elems(cluster), s);
  }

  // ---------------------------------------------------------------------
  // Which bubbles are cleared

  /** The bubbles `findAndClearMatches` removes: those whose group has at
      least three members. */
  ghost function ClearSet(b: Board): set<Pos>
    requires Sized(b)
  {
    set p | p in AllCells() && Occupied(b, p) && |Component(b, p)| >= 3
  }

  /** A group lies inside the cleared set as a whole or not at all, so a
      non-empty cleared set has at least three bubbles. */
  lemma ClearSetGroups(b: Board, p: Pos)
    requires Sized(b) && p in ClearSet(b)
    ensures Component(b, p) <= ClearSet(b)
    ensures |ClearSet(b)| >= 3
  {
    forall q | q in Component(b, p)
      ensures q in ClearSet(b)
    {
      ComponentOfMember(b, p, q);
      ComponentOccupied(b, p, q);
    }
    SubsetCard(Component(b, p), ClearSet(b));
  }

  lemma {:induction false} SubsetCard<T>(a: set<T>, b: set<T>)
    requires a <= b
    ensures |a| <= |b|
    decreases |a|
  {
    if a != {} {
      var x :| x in a;
      SubsetCard(a - {x}, b - {x});
    }
  }

  /** Cells visited before (row, col) in the row-major scan. */
  predicate Before(p: Pos, row: int, col: int) {
    p.row < row || (p.row == row && p.col < col)
  }

  /** The scan keeps: `visited` is a closed set of bubbles holding every
      bubble already passed, and `toClear` lists, once each, the visited
      bubbles whose group has at least three members. */
  ghost predicate ScanState(b: Board, visited: set<Pos>, toClear: seq<Pos>, row: int, col: int)
    requires Sized(b)
  {
    Closed(b, visited)
    && (forall p :: p in visited ==> Occupied(b, p))
    && (forall p :: Occupied(b, p) && Before(p, row, col) ==> p in visited)
    && Elems(toClear) == (set p | p in visited && |Component(b, p)| >= 3)
    && NoDup(toClear)
  }

  /** One cell of the scan: an unvisited bubble starts a search, and a
      cluster of three or more is queued for clearing. */
  method VisitCell(b: Board, visited: set<Pos>, toClear: seq<Pos>, row: int, col: int)
    returns (visited': set<Pos>, toClear': seq<Pos>)
    requires Sized(b) && InBoard(row, col) && ScanState(b, visited, toClear, row, col)
    ensures ScanState(b, visited', toClear', row, col + 1)
  {
    visited', toClear' := visited, toClear;
    var bubble := b[row][col];
    if bubble.None? {
      return;
    }
    var key := Pos(row, col);
    if key in visited {
      return;
    }
    var cluster, v := Flood(b, key, visited);
    ConnectedRefl(b, key);
    ghost var comp := Component(b, key);
    ComponentClosed(b, key);
    ClosedUnion(b, visited, comp);
    ComponentAvoidsClosed(b, visited, key);
    NoDupCard(cluster);
    GroupMembers(b, key);
    LargeOfUnion(b, visited, comp, |cluster| >= 3);
    if |cluster| >= 3 {
      NoDupAppend(toClear, cluster);
      toClear' := toClear + cluster;
    }
    visited' := v;
  }

  lemma ClosedUnion(b: Board, v: set<Pos>, w: set<Pos>)
    requires Sized(b) && Closed(b, v) && Closed(b, w)
    ensures Closed(b, v + w)
  {
  }

  /** Every member of a group is a bubble with that same group. */
  lemma GroupMembers(b: Board, key: Pos)
    requires Sized(b)
    ensures forall q :: q in Component(b, key) ==> Component(b, q) == Component(b, key) && Occupied(b, q)
  {
    forall q | q in Component(b, key)
      ensures Component(b, q) == Component(b, key) && Occupied(b, q)
    {
      ComponentOfMember(b, key, q);
      ComponentOccupied(b, key, q);
    }
  }

  /** The large-group members of `v + comp`, for a group `comp` whose
      members all have it as their group. */
  lemma LargeOfUnion(b: Board, v: set<Pos>, comp: set<Pos>, large: bool)
    requires Sized(b)
    requires forall q :: q in comp ==> Component(b, q) == comp
    requires large <==> |comp| >= 3
    ensures (set p | p in v + comp && |Component(b, p)| >= 3)
      == (set p | p in v && |Component(b, p)| >= 3) + (if large then comp else {})
  {
  }

  lemma NoDupAppend<T>(a: seq<T>, c: seq<T>)
    requires NoDup(a) && NoDup(c) && Elems(a) * Elems(c) == {}
    ensures NoDup(a + c) && Elems(a + c) == Elems(a) + Elems(c)
  {
    forall i, j | 0 <= i < j < |a + c|
      ensures (a + c)[i] != (a + c)[j]
    {
      if j < |a| {
        assert (a + c)[i] == a[i] && (a + c)[j] == a[j];
      } else if i >= |a| {
        assert (a + c)[i] == c[i - |a|] && (a + c)[j] == c[j - |a|];
      } else {
        assert (a + c)[i] == a[i] && (a + c)[j] == c[j - |a|];
        assert a[i] in Elems(a) && c[j - |a|] in Elems(c);
        assert a[i] !in Elems(a) * Elems(c);
      }
    }
  }

  /** The row-major scan of `findAndClearMatches`: the list of cells to
      clear holds every bubble of every group of three or more, once. */
  method FindClusters(b: Board) returns (toClear: seq<Pos>)
    requires Sized(b)
    ensures Elems(toClear) == ClearSet(b) && NoDup(toClear)
  {
    var visited: set<Pos> := {};
    toClear := [];
    var row := 0;
    while row < Rows
      invariant 0 <= row <= Rows && ScanState(b, visited, toClear, row, 0)
    {
      var col := 0;
      while col < Cols
        invariant 0 <= col <= Cols && ScanState(b, visited, toClear, row, col)
      {
        visited, toClear := VisitCell(b, visited, toClear, row, col);
        col := col + 1;
      }
      row := row + 1;
    }
    forall p | p in visited
      ensures p in AllCells()
    {
      InAllCells(p);
    }
  }

  /** The board with the cells of `S` emptied. */
  function Blanked(b: Board, S: set<Pos>): (h: Board)
    requires Sized(b)
    ensures Sized(h)
    ensures forall r, c :: 0 <= r < Rows && 0 <= c < Cols ==> h[r][c] == if Pos(r, c) in S then None else b[r][c]
  {
    seq(Rows, r requires 0 <= r < Rows =>
      seq(Cols, c requires 0 <= c < Cols => if Pos(r, c) in S then None else b[r][c]))
  }

  /** `boardAfterClear[row][col] = null` for every queued cell. */
  method BlankAll(b: Board, toClear: seq<Pos>) returns (h: Board)
    requires Sized(b) && forall p :: p in toClear ==> InBoard(p.row, p.col)
    ensures h == Blanked(b, Elems(toClear))
  {
    h := b;
    var i := 0;
    while i < |toClear|
      invariant 0 <= i <= |toClear| && Sized(h)
      invariant forall r, c :: 0 <= r < Rows && 0 <= c < Cols ==>
        h[r][c] == if Pos(r, c) in toClear[..i] then None else b[r][c]
    {
      h := SetCell(h, toClear[i].row, toClear[i].col, None);
      assert toClear[..i + 1] == toClear[..i] + [toClear[i]];
      i := i + 1;
    }
    assert toClear[..i] == toClear;
    BoardExt(h, Blanked(b, Elems(toClear)));
  }

  /** What one call of `findAndClearMatches` returns. */
  datatype Cleared = Cleared(cleared: nat, board: Board)

  /** One clearing pass: with no group of three the board comes back
      unchanged; otherwise every such group is removed and gravity applied. */
  ghost function ClearOutcome(b: Board): Cleared
    requires Sized(b)
  {
    if ClearSet(b) == {} then Cleared(0, b)
    else Cleared(|ClearSet(b)|, Gravity(Blanked(b, ClearSet(b))))
  }

  method FindAndClearMatches(b: Board) returns (r: Cleared)
    requires Sized(b)
    ensures r == ClearOutcome(b)
  {
    var toClear := FindClusters(b);
    NoDupCard(toClear);
    if |toClear| == 0 {
      return Cleared(0, b);
    }
    forall p | p in toClear
      ensures InBoard(p.row, p.col)
    {
      assert p in Elems(toClear);
    }
    var afterClear := BlankAll(b, toClear);
    var withGravity := ApplyGravity(afterClear);
    r := Cleared(|toClear|, withGravity);
  }

  // ---------------------------------------------------------------------
  // The chain loop of `resolveBoard`

  /** The number of bubbles in columns `c` and beyond. */
  function CountFrom(b: Board, c: int): nat
    requires Sized(b) && 0 <= c <= Cols
    decreases Cols - c
  {
    if c == Cols then 0 else |Present(Column(b, c))| + CountFrom(b, c + 1)
  }

  function BubbleCount(b: Board): nat
    requires Sized(b)
  {
    CountFrom(b, 0)
  }

  /** Gravity keeps the number of bubbles. */
  lemma {:induction false} GravityCountFrom(b: Board, c: int)
    requires Sized(b) && 0 <= c <= Cols
    ensures CountFrom(Gravity(b), c) == CountFrom(b, c)
    decreases Cols - c
  {
    if c < Cols {
      GravityColumn(b, c);
      GravityCountFrom(b, c + 1);
    }
  }

  /** Emptying some cells never adds bubbles to a column, and emptying a
      bubble removes one. */
  lemma {:induction false} PresentShrinks(s: seq<Cell>, t: seq<Cell>)
    requires |s| == |t| && forall i :: 0 <= i < |t| ==> t[i] == s[i] || t[i] == None
    ensures |Present(t)| <= |Present(s)|
    ensures (exists i :: 0 <= i < |s| && s[i].Some? && t[i] == None) ==> |Present(t)| < |Present(s)|
    decreases |s|
  {
    if s != [] {
      PresentShrinks(s[1..], t[1..]);
      if exists i :: 0 <= i < |s| && s[i].Some? && t[i] == None {
        var i :| 0 <= i < |s| && s[i].Some? && t[i] == None;
        if i > 0 {
          assert s[1..][i - 1].Some? && t[1..][i - 1] == None;
        }
      }
    }
  }

  /** Emptying cells of `S` leaves no more bubbles in any column, and fewer
      in a column holding one of them. */
  lemma {:induction false} BlankedCountFrom(b: Board, S: set<Pos>, c: int)
    requires Sized(b) && 0 <= c <= Cols
    ensures CountFrom(Blanked(b, S), c) <= CountFrom(b, c)
    ensures (exists p :: p in S && Occupied(b, p) && c <= p.col) ==> CountFrom(Blanked(b, S), c) < CountFrom(b, c)
    decreases Cols - c
  {
    if c < Cols {
      var h := Blanked(b, S);
      PresentShrinks(Column(b, c), Column(h, c));
      BlankedCountFrom(b, S, c + 1);
      if exists p :: p in S && Occupied(b, p) && c <= p.col {
        var p :| p in S && Occupied(b, p) && c <= p.col;
        if p.col == c {
          assert Column(b, c)[p.row].Some? && Column(h, c)[p.row] == None;
        }
      }
    }
  }

  /** A pass that clears something leaves fewer bubbles: the chain loop ends. */
  lemma ClearShrinks(b: Board)
    requires Sized(b) && ClearOutcome(b).cleared > 0
    ensures BubbleCount(ClearOutcome(b).board) < BubbleCount(b)
  {
    var p :| p in ClearSet(b);
    BlankedCountFrom(b, ClearSet(b), 0);
    GravityCountFrom(Blanked(b, ClearSet(b)), 0);
  }

  /** What `resolveBoard` ends with: the total cleared, the final board,
      the score and the number of passes that cleared something. */
  datatype Resolved = Resolved(totalCleared: nat, board: Board, score: int, chain: nat)

  /** 1 + 2 + ... + n. */
  function Triangle(n: nat): nat {
    if n == 0 then 0 else n + Triangle(n - 1)
  }

  /** Blanking cells of a well-formed board keeps it well formed. */
  lemma BlankedWellFormed(b: Board, S: set<Pos>)
    requires WellFormed(b)
    ensures WellFormed(Blanked(b, S))
  {
  }

  /** What a pass that clears something yields: at least three bubbles gone,
      fewer bubbles on the board, a settled board, and a well-formed board
      from a well-formed one. */
  lemma PassFacts(b: Board)
    requires Sized(b) && ClearOutcome(b).cleared > 0
    ensures var o := ClearOutcome(b);
      Sized(o.board) && o.cleared >= 3 && BubbleCount(o.board) < BubbleCount(b)
      && Settled(o.board) && (WellFormed(b) ==> WellFormed(o.board))
  {
    ClearShrinks(b);
    var p :| p in ClearSet(b);
    ClearSetGroups(b, p);
    GravitySettles(Blanked(b, ClearSet(b)));
    if WellFormed(b) {
      BlankedWellFormed(b, ClearSet(b));
      GravityWellFormed(Blanked(b, ClearSet(b)));
    }
  }

  /** `resolveBoard`: repeat `findAndClearMatches` until a pass clears
      nothing.  The loop ends because every pass that clears something
      removes at least three bubbles; it stops on a board with no group of
      three; each pass adds fifteen points per bubble plus five times its
      pass number; without a pass the board is returned as it was, and after
      one it is settled. */
  method ResolveBoard(initial: Board, score0: int) returns (r: Resolved)
    requires Sized(initial)
    ensures Sized(r.board) && ClearSet(r.board) == {}
    ensures r.totalCleared >= 3 * r.chain
    ensures r.score == score0 + 15 * r.totalCleared + 5 * Triangle(r.chain)
    ensures r.chain == 0 ==> r.board == initial && r.totalCleared == 0
    ensures r.chain > 0 ==> Settled(r.board)
    ensures WellFormed(initial) ==> WellFormed(r.board)
  {
    var boardToProcess := initial;
    var totalCleared: nat := 0;
    var chainCount: nat := 0;
    var score := score0;
    while true
      invariant Sized(boardToProcess)
      invariant totalCleared >= 3 * chainCount
      invariant score == score0 + 15 * totalCleared + 5 * Triangle(chainCount)
      invariant chainCount == 0 ==> boardToProcess == initial && totalCleared == 0
      invariant chainCount > 0 ==> Settled(boardToProcess)
      invariant WellFormed(initial) ==> WellFormed(boardToProcess)
      decreases BubbleCount(boardToProcess)
    {
      var pass := FindAndClearMatches(boardToProcess);
      if pass.cleared == 0 {
        break;
      }
      PassFacts(boardToProcess);
      totalCleared := totalCleared + pass.cleared;
      chainCount := chainCount + 1;
      boardToProcess := pass.board;
      score := score + pass.cleared * 15 + chainCount * 5;
    }
    r := Resolved(totalCleared, boardToProcess, score, chainCount);
  }
}
