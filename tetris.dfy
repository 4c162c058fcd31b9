// The grid, the pieces and the drop/clear primitives of the two Tetris engines: shapes
// and rotations, the text form of a grid, hard drops, the columns a piece can be dropped
// in, the automatic move, and locking a piece and clearing full rows.

module Tetris {
  import opened Options
  import opened Permutations

  const WIDTH: int := 10
  const HEIGHT: int := 20

  /** The row a dropped piece's box starts from: the top row. */
  const SPAWN: int := 0

  /** The seven tetromino names, in the order of the engines' shape table. */
  const PIECES: seq<char> := ['I', 'O', 'T', 'J', 'L', 'S', 'Z']

  /** A position (x, y): x counts columns from the left, y counts rows from the top. */
  type Pos = (int, int)

  /** A grid cell is empty or holds the name of the piece that filled it. */
  datatype Cell = Empty | Filled(name: char)

  type Row = seq<Cell>

  /** A move: a rotation and the column offset of the piece's shape box. */
  datatype Move = Move(rot: int, x: int)

  // ---------------------------------------------------------------------------
  // Shapes

  /** The four rotations of each tetromino, as cells of its 4x4 shape box. */
  function Rotations(piece: char): (r: seq<seq<Pos>>)
    requires piece in PIECES
    ensures |r| == 4
    ensures forall k :: 0 <= k < 4 ==>
      |r[k]| == 4 && Boxed(r[k][0]) && Boxed(r[k][1]) && Boxed(r[k][2]) && Boxed(r[k][3])
  {
    if piece == 'I' then
      [[(0,1),(1,1),(2,1),(3,1)], [(2,0),(2,1),(2,2),(2,3)],
       [(0,2),(1,2),(2,2),(3,2)], [(1,0),(1,1),(1,2),(1,3)]]
    else if piece == 'O' then
      [[(1,0),(2,0),(1,1),(2,1)], [(1,0),(2,0),(1,1),(2,1)],
       [(1,0),(2,0),(1,1),(2,1)], [(1,0),(2,0),(1,1),(2,1)]]
    else if piece == 'T' then
      [[(1,0),(0,1),(1,1),(2,1)], [(1,0),(1,1),(2,1),(1,2)],
       [(0,1),(1,1),(2,1),(1,2)], [(1,0),(0,1),(1,1),(1,2)]]
    else if piece == 'J' then
      [[(0,0),(0,1),(1,1),(2,1)], [(1,0),(2,0),(1,1),(1,2)],
       [(0,1),(1,1),(2,1),(2,2)], [(1,0),(1,1),(0,2),(1,2)]]
    else if piece == 'L' then
      [[(2,0),(0,1),(1,1),(2,1)], [(1,0),(1,1),(1,2),(2,2)],
       [(0,1),(1,1),(2,1),(0,2)], [(0,0),(1,0),(1,1),(1,2)]]
    else if piece == 'S' then
      [[(1,0),(2,0),(0,1),(1,1)], [(1,0),(1,1),(2,1),(2,2)],
       [(1,1),(2,1),(0,2),(1,2)], [(0,0),(0,1),(1,1),(1,2)]]
    else
      [[(0,0),(1,0),(1,1),(2,1)], [(2,0),(1,1),(2,1),(1,2)],
       [(0,1),(1,1),(1,2),(2,2)], [(1,0),(0,1),(1,1),(0,2)]]
  }

  predicate Boxed(c: Pos) {
    0 <= c.0 <= 3 && 0 <= c.1 <= 3
  }

  /** Four cells, each inside the 4x4 shape box. */
  predicate InBox(cells: seq<Pos>) {
    |cells| == 4 && forall i :: 0 <= i < 4 ==> Boxed(cells[i])
  }

  lemma FourBoxed(cells: seq<Pos>)
    requires |cells| == 4 && Boxed(cells[0]) && Boxed(cells[1]) && Boxed(cells[2]) && Boxed(cells[3])
    ensures InBox(cells)
  {
    forall i | 0 <= i < 4
      ensures Boxed(cells[i])
    {
      if i == 0 {} else if i == 1 {} else if i == 2 {} else {}
    }
  }

  /** The cells of a piece in a rotation; any rotation is taken modulo 4. */
  function Shape(piece: char, rotation: int): (cells: seq<Pos>)
    requires piece in PIECES
    ensures InBox(cells)
  {
    var cells := Rotations(piece)[rotation % 4];
    FourBoxed(cells);
    cells
  }

  /** The leftmost and rightmost column a shape occupies in its box. */
  function MinX(cells: seq<Pos>): (m: int)
    requires |cells| > 0
    ensures forall i :: 0 <= i < |cells| ==> m <= cells[i].0
    ensures exists i :: 0 <= i < |cells| && m == cells[i].0
  {
    if |cells| == 1 then cells[0].0
    else
      var rest := MinX(cells[1..]);
      if cells[0].0 <= rest then cells[0].0 else rest
  }

  function MaxX(cells: seq<Pos>): (m: int)
    requires |cells| > 0
    ensures forall i :: 0 <= i < |cells| ==> cells[i].0 <= m
    ensures exists i :: 0 <= i < |cells| && m == cells[i].0
  {
    if |cells| == 1 then cells[0].0
    else
      var rest := MaxX(cells[1..]);
      if cells[0].0 >= rest then cells[0].0 else rest
  }

  // ---------------------------------------------------------------------------
  // The grid and its text form

  /** HEIGHT rows of WIDTH cells each. */
  predicate WellFormed(g: seq<Row>) {
    |g| == HEIGHT && forall y :: 0 <= y < |g| ==> |g[y]| == WIDTH
  }

  function EmptyRow(): (row: Row)
    ensures |row| == WIDTH && forall x :: 0 <= x < WIDTH ==> row[x] == Empty
  {
    seq(WIDTH, _ => Empty)
  }

  /** A fresh grid: every cell empty. */
  function EmptyGrid(): (g: seq<Row>)
    ensures WellFormed(g)
    ensures forall y, x :: 0 <= y < HEIGHT && 0 <= x < WIDTH ==> g[y][x] == Empty
  {
    seq(HEIGHT, _ => EmptyRow())
  }

  /** No cell holds the name '.', the letter the text form uses for an empty cell. */
  predicate NoDots(g: seq<Row>) {
    forall y, x :: 0 <= y < |g| && 0 <= x < |g[y]| ==> g[y][x] != Filled('.')
  }

  function Glyph(c: Cell): char {
    match c
    case Empty => '.'
    case Filled(name) => name
  }

  function RowText(row: Row): (t: string)
    ensures |t| == |row|
  {
    seq(|row|, x requires 0 <= x < |row| => Glyph(row[x]))
  }

  /** The grid as text: one string per row, '.' for an empty cell and the piece name
      otherwise. */
  function Render(g: seq<Row>): (rows: seq<string>)
    ensures |rows| == |g|
  {
    seq(|g|, y requires 0 <= y < |g| => RowText(g[y]))
  }

  /** Text back to a grid: the first HEIGHT strings and the first WIDTH characters of
      each count, '.' is an empty cell, any other character a filled one, and cells the
      text does not reach stay empty. */
  function Parse(rows: seq<string>): (g: seq<Row>)
    ensures WellFormed(g)
  {
    seq(HEIGHT, y requires 0 <= y < HEIGHT =>
      seq(WIDTH, x requires 0 <= x < WIDTH =>
        if y < |rows| && x < |rows[y]| && rows[y][x] != '.' then Filled(rows[y][x]) else Empty))
  }

  /** The text form keeps the grid's shape and shows '.' exactly at the empty cells. */
  lemma RenderShape(g: seq<Row>)
    requires NoDots(g)
    ensures |Render(g)| == |g|
    ensures forall y :: 0 <= y < |g| ==> |Render(g)[y]| == |g[y]|
    ensures forall y, x :: 0 <= y < |g| && 0 <= x < |g[y]| ==>
      (Render(g)[y][x] == '.' <==> g[y][x] == Empty)
  {
    forall y, x | 0 <= y < |g| && 0 <= x < |g[y]|
      ensures Render(g)[y][x] == '.' <==> g[y][x] == Empty
    {
      assert Render(g)[y] == RowText(g[y]);
      assert g[y][x] != Filled('.');
    }
  }

  /** Reading back the text of a grid gives the same grid. */
  lemma ParseRender(g: seq<Row>)
    requires WellFormed(g) && NoDots(g)
    ensures Parse(Render(g)) == g
  {
    var p := Parse(Render(g));
    forall y | 0 <= y < HEIGHT
      ensures p[y] == g[y]
    {
      forall x | 0 <= x < WIDTH
        ensures p[y][x] == g[y][x]
      {
        assert Render(g)[y] == RowText(g[y]);
        assert g[y][x] != Filled('.');
      }
    }
  }

  /** Text of HEIGHT rows of WIDTH characters survives the round trip through a grid. */
  lemma RenderParse(rows: seq<string>)
    requires |rows| == HEIGHT && forall y :: 0 <= y < HEIGHT ==> |rows[y]| == WIDTH
    ensures Render(Parse(rows)) == rows
  {
    var r := Render(Parse(rows));
    forall y | 0 <= y < HEIGHT
      ensures r[y] == rows[y]
    {
      assert r[y] == RowText(Parse(rows)[y]);
      forall x | 0 <= x < WIDTH
        ensures r[y][x] == rows[y][x]
      {
      }
    }
  }

  /** Renders a well-formed grid row by row. */
  method GridToStrings(g: seq<Row>) returns (rows: seq<string>)
    requires WellFormed(g)
    ensures rows == Render(g)
  {
    rows := [];
    for y := 0 to HEIGHT
      invariant rows == Render(g)[..y]
    {
      var row := "";
      for x := 0 to WIDTH
        invariant row == RowText(g[y])[..x]
      {
        row := row + [if g[y][x] != Empty then g[y][x].name else '.'];
      }
      assert row == RowText(g[y]) == Render(g)[y];
      assert Render(g)[..y + 1] == Render(g)[..y] + [Render(g)[y]];
      rows := rows + [row];
    }
  }

  /** Builds a grid from text, starting from an empty grid and filling the cells the text
      reaches. */
  method StringsToGrid(rows: seq<string>) returns (g: seq<Row>)
    ensures g == Parse(rows)
  {
    g := EmptyGrid();
    var h := if HEIGHT < |rows| then HEIGHT else |rows|;
    for y := 0 to h
      invariant WellFormed(g)
      invariant forall yy :: 0 <= yy < y ==> g[yy] == Parse(rows)[yy]
      invariant forall yy :: y <= yy < HEIGHT ==> g[yy] == EmptyRow()
    {
      var w := if WIDTH < |rows[y]| then WIDTH else |rows[y]|;
      var row := EmptyRow();
      for x := 0 to w
        invariant |row| == WIDTH
        invariant forall xx :: 0 <= xx < x ==> row[xx] == Parse(rows)[y][xx]
        invariant forall xx :: x <= xx < WIDTH ==> row[xx] == Empty
      {
        var ch := rows[y][x];
        row := row[x := if ch == '.' then Empty else Filled(ch)];
      }
      assert row == Parse(rows)[y];
      g := g[y := row];
    }
    assert forall yy :: h <= yy < HEIGHT ==> EmptyRow() == Parse(rows)[yy];
  }

  // ---------------------------------------------------------------------------
  // Hard drop

  /** A position a piece may not occupy: below the bottom row, or a filled cell of the
      grid. Positions above the top row are open. */
  predicate Blocked(g: seq<Row>, p: Pos)
    requires WellFormed(g)
  {
    p.1 >= HEIGHT || (0 <= p.1 && 0 <= p.0 < WIDTH && g[p.1][p.0] != Empty)
  }

  /** The cells of a shape whose box has its corner at column x and row y. */
  function Shift(cells: seq<Pos>, x: int, y: int): (r: seq<Pos>)
    ensures |r| == |cells|
    ensures forall i :: 0 <= i < |cells| ==> r[i] == (x + cells[i].0, y + cells[i].1)
  {
    seq(|cells|, i requires 0 <= i < |cells| => (x + cells[i].0, y + cells[i].1))
  }

  /** With its box at (x, y), the shape overlaps a blocked position (looking at the
      cells in order). */
  predicate Collides(g: seq<Row>, cells: seq<Pos>, x: int, y: int)
    requires WellFormed(g)
    decreases |cells|
  {
    |cells| > 0 && (Blocked(g, (x + cells[0].0, y + cells[0].1)) || Collides(g, cells[1..], x, y))
  }

  /** The collision test holds exactly when some cell of the box is blocked. */
  lemma {:induction false} CollidesMeaning(g: seq<Row>, cells: seq<Pos>, x: int, y: int)
    requires WellFormed(g)
    ensures Collides(g, cells, x, y) <==>
      exists i :: 0 <= i < |cells| && Blocked(g, (x + cells[i].0, y + cells[i].1))
    decreases |cells|
  {
    if |cells| > 0 {
      var rest := cells[1..];
      CollidesMeaning(g, rest, x, y);
      if Collides(g, rest, x, y) {
        var i :| 0 <= i < |rest| && Blocked(g, (x + rest[i].0, y + rest[i].1));
        assert rest[i] == cells[i + 1];
      }
      if exists i :: 0 <= i < |cells| && Blocked(g, (x + cells[i].0, y + cells[i].1)) {
        var i :| 0 <= i < |cells| && Blocked(g, (x + cells[i].0, y + cells[i].1));
        if i > 0 {
          assert rest[i - 1] == cells[i];
        }
      }
    }
  }

  /** The row the drop search settles on: starting at row y it moves the box down until
      it collides, then steps back one row. */
  function Landing(g: seq<Row>, cells: seq<Pos>, x: int, y: int): int
    requires WellFormed(g) && InBox(cells) && y <= HEIGHT
    decreases HEIGHT - y
  {
    if Collides(g, cells, x, y) then y - 1
    else
      assert !Blocked(g, (x + cells[0].0, y + cells[0].1));
      Landing(g, cells, x, y + 1)
  }

  /** Every position lies inside the grid on an empty cell. */
  predicate Free(g: seq<Row>, ps: seq<Pos>)
    requires WellFormed(g)
  {
    forall i :: 0 <= i < |ps| ==> 0 <= ps[i].1 < HEIGHT && 0 <= ps[i].0 < WIDTH && g[ps[i].1][ps[i].0] == Empty
  }

  /** The box of the shape fits between the side walls at offset x. */
  predicate BetweenWalls(cells: seq<Pos>, x: int)
    requires |cells| > 0
  {
    0 <= x + MinX(cells) && x + MaxX(cells) < WIDTH
  }

  /** Where a hard drop puts a shape: None when its box sticks out sideways or when the
      place the search settles on is not a free position inside the grid. */
  function DropShape(g: seq<Row>, cells: seq<Pos>, x: int): Option<seq<Pos>>
    requires WellFormed(g) && InBox(cells)
  {
    if !BetweenWalls(cells, x) then None
    else
      var final := Shift(cells, x, Landing(g, cells, x, SPAWN));
      if Free(g, final) then Some(final) else None
  }

  /** Where a hard drop puts a piece in a rotation. */
  function Drop(g: seq<Row>, piece: char, rotation: int, x: int): Option<seq<Pos>>
    requires WellFormed(g) && piece in PIECES
  {
    DropShape(g, Shape(piece, rotation), x)
  }

  /** Only the rotation modulo 4 matters. */
  lemma DropModulo(g: seq<Row>, piece: char, rotation: int, x: int)
    requires WellFormed(g) && piece in PIECES
    ensures Drop(g, piece, rotation % 4, x) == Drop(g, piece, rotation, x)
  {
    assert Shape(piece, rotation % 4) == Shape(piece, rotation);
  }

  /** Every shape collides once its box is at the bottom row or lower. */
  lemma BelowBottomCollides(g: seq<Row>, cells: seq<Pos>, x: int, y: int)
    requires WellFormed(g) && InBox(cells) && y >= HEIGHT
    ensures Collides(g, cells, x, y)
  {
    assert Blocked(g, (x + cells[0].0, y + cells[0].1));
  }

  /** The landing row is the row just above the first collision below row y. */
  lemma {:induction false} LandingMeaning(g: seq<Row>, cells: seq<Pos>, x: int, y: int)
    requires WellFormed(g) && InBox(cells) && y <= HEIGHT
    ensures y - 1 <= Landing(g, cells, x, y) < HEIGHT
    ensures !Collides(g, cells, x, y) ==> y <= Landing(g, cells, x, y)
    ensures Collides(g, cells, x, Landing(g, cells, x, y) + 1)
    ensures forall z :: y <= z <= Landing(g, cells, x, y) ==> !Collides(g, cells, x, z)
    decreases HEIGHT - y
  {
    if !Collides(g, cells, x, y) {
      assert !Blocked(g, (x + cells[0].0, y + cells[0].1));
      LandingMeaning(g, cells, x, y + 1);
    }
  }

  /** The search started at row s settles just above the first colliding row y. */
  lemma {:induction false} LandingFirst(g: seq<Row>, cells: seq<Pos>, x: int, s: int, y: int)
    requires WellFormed(g) && InBox(cells) && s <= y <= HEIGHT
    requires forall z :: s <= z < y ==> !Collides(g, cells, x, z)
    requires Collides(g, cells, x, y)
    ensures Landing(g, cells, x, s) == y - 1
    decreases y - s
  {
    if s < y {
      LandingFirst(g, cells, x, s + 1, y);
    }
  }

  /** A box that collides one row lower leaves some cell of its shifted shape with a
      blocked position right below it. */
  lemma BlockedBelow(g: seq<Row>, cells: seq<Pos>, x: int, y: int)
    requires WellFormed(g) && Collides(g, cells, x, y + 1)
    ensures var final := Shift(cells, x, y);
      exists i :: 0 <= i < |final| && Blocked(g, (final[i].0, final[i].1 + 1))
  {
    CollidesMeaning(g, cells, x, y + 1);
    var final := Shift(cells, x, y);
    var i :| 0 <= i < |cells| && Blocked(g, (x + cells[i].0, y + 1 + cells[i].1));
    assert (final[i].0, final[i].1 + 1) == (x + cells[i].0, y + 1 + cells[i].1);
  }

  /** A successful drop leaves the four cells inside the grid on empty cells, resting:
      one row lower at least one cell is blocked. */
  lemma DropRests(g: seq<Row>, cells: seq<Pos>, x: int)
    requires WellFormed(g) && InBox(cells) && DropShape(g, cells, x).Some?
    ensures |DropShape(g, cells, x).value| == 4
    ensures Free(g, DropShape(g, cells, x).value)
    ensures var final := DropShape(g, cells, x).value;
      exists i :: 0 <= i < |final| && Blocked(g, (final[i].0, final[i].1 + 1))
  {
    var y := Landing(g, cells, x, SPAWN);
    assert DropShape(g, cells, x) == Some(Shift(cells, x, y));
    LandingMeaning(g, cells, x, SPAWN);
    BlockedBelow(g, cells, x, y);
  }

  /** A successful drop is the shape moved straight down from the top row, through rows
      where it collides with nothing. */
  lemma DropFromTop(g: seq<Row>, cells: seq<Pos>, x: int)
    requires WellFormed(g) && InBox(cells) && DropShape(g, cells, x).Some?
    ensures exists y ::
      && DropShape(g, cells, x).value == Shift(cells, x, y)
      && (forall z :: SPAWN <= z <= y ==> !Collides(g, cells, x, z))
  {
    var y := Landing(g, cells, x, SPAWN);
    assert DropShape(g, cells, x) == Some(Shift(cells, x, y));
    LandingMeaning(g, cells, x, SPAWN);
  }

  /** A shape whose box fits between the walls and does not collide in the top row can
      always be dropped. */
  lemma DropFromOpenTop(g: seq<Row>, cells: seq<Pos>, x: int)
    requires WellFormed(g) && InBox(cells)
    requires BetweenWalls(cells, x) && !Collides(g, cells, x, SPAWN)
    ensures DropShape(g, cells, x).Some?
  {
    var y := Landing(g, cells, x, SPAWN);
    LandingMeaning(g, cells, x, SPAWN);
    assert !Collides(g, cells, x, y);
    CollidesMeaning(g, cells, x, y);
    var final := Shift(cells, x, y);
    forall i | 0 <= i < |final|
      ensures 0 <= final[i].1 < HEIGHT && 0 <= final[i].0 < WIDTH && g[final[i].1][final[i].0] == Empty
    {
      assert !Blocked(g, (x + cells[i].0, y + cells[i].1));
    }
  }

  /** One probe of the search: whether the box at row y reaches below the bottom row
      (`out`) or overlaps a filled cell (`collided`), looking at the cells in order. */
  method Probe(g: seq<Row>, cells: seq<Pos>, x: int, y: int) returns (collided: bool, out: bool)
    requires WellFormed(g) && |cells| > 0 && BetweenWalls(cells, x)
    ensures collided || out <==> Collides(g, cells, x, y)
  {
    collided, out := false, false;
    for i := 0 to |cells|
      invariant !collided && !out
      invariant Collides(g, cells, x, y) == Collides(g, cells[i..], x, y)
    {
      var xx := x + cells[i].0;
      var yy := y + cells[i].1;
      assert cells[i..][0] == cells[i] && cells[i..][1..] == cells[i + 1..];
      if yy >= HEIGHT {
        out := true;
        break;
      }
      if yy >= 0 && g[yy][xx] != Empty {
        collided := true;
        break;
      }
    }
  }

  /** Checks the final cells one by one. */
  method CheckFree(g: seq<Row>, ps: seq<Pos>) returns (free: bool)
    requires WellFormed(g)
    ensures free == Free(g, ps)
  {
    for i := 0 to |ps|
      invariant forall j :: 0 <= j < i ==> 0 <= ps[j].1 < HEIGHT && 0 <= ps[j].0 < WIDTH && g[ps[j].1][ps[j].0] == Empty
    {
      var (fx, fy) := ps[i];
      if fy < 0 || fy >= HEIGHT || fx < 0 || fx >= WIDTH {
        return false;
      }
      if g[fy][fx] != Empty {
        return false;
      }
    }
    return true;
  }

  /** The end of the search: the box collided at row y, so step back one row and accept
      the place if every cell is inside the grid and empty. */
  method StepBack(g: seq<Row>, cells: seq<Pos>, xOffset: int, y: int) returns (r: Option<seq<Pos>>)
    requires WellFormed(g) && InBox(cells) && BetweenWalls(cells, xOffset) && 0 <= y <= HEIGHT
    requires forall z :: 0 <= z < y ==> !Collides(g, cells, xOffset, z)
    requires Collides(g, cells, xOffset, y)
    ensures r == DropShape(g, cells, xOffset)
  {
    LandingFirst(g, cells, xOffset, SPAWN, y);
    var final := Shift(cells, xOffset, y - 1);
    var free := CheckFree(g, final);
    if !free {
      return None;
    }
    return Some(final);
  }

  /** The hard-drop search: spawn the box in the top row and move it down one row at a
      time until it collides or leaves the grid. */
  method DropSearch(g: seq<Row>, cells: seq<Pos>, xOffset: int) returns (r: Option<seq<Pos>>)
    requires WellFormed(g) && InBox(cells)
    ensures r == DropShape(g, cells, xOffset)
  {
    var minX := MinX(cells);
    var maxX := MaxX(cells);
    if xOffset + minX < 0 || xOffset + maxX >= WIDTH {
      return None;
    }
    var y := SPAWN;
    while true
      invariant 0 <= y <= HEIGHT
      invariant forall z :: 0 <= z < y ==> !Collides(g, cells, xOffset, z)
      decreases HEIGHT - y
    {
      var collided, out := Probe(g, cells, xOffset, y);
      if collided || out {
        r := StepBack(g, cells, xOffset, y);
        return;
      }
      assert y < HEIGHT by {
        if y >= HEIGHT {
          BelowBottomCollides(g, cells, xOffset, y);
        }
      }
      y := y + 1;
    }
  }

  /** The hard drop of a piece: look up its cells for the rotation, then search. */
  method HardDrop(g: seq<Row>, piece: char, rotation: int, xOffset: int) returns (r: Option<seq<Pos>>)
    requires WellFormed(g) && piece in PIECES
    ensures r == Drop(g, piece, rotation, xOffset)
  {
    var cells := Shape(piece, rotation);
    r := DropSearch(g, cells, xOffset);
  }

  // ---------------------------------------------------------------------------
  // Valid columns and the automatic move

  /** The integers among lo .. hi-1 that satisfy ok, ascending. */
  function Filter(ok: int -> bool, lo: int, hi: int): seq<int>
    decreases hi - lo
  {
    if hi <= lo then [] else Filter(ok, lo, hi - 1) + (if ok(hi - 1) then [hi - 1] else [])
  }

  predicate Ascending(s: seq<int>) {
    forall i, j :: 0 <= i < j < |s| ==> s[i] < s[j]
  }

  lemma {:induction false} FilterMeaning(ok: int -> bool, lo: int, hi: int)
    ensures forall x :: x in Filter(ok, lo, hi) <==> lo <= x < hi && ok(x)
    ensures Ascending(Filter(ok, lo, hi))
    decreases hi - lo
  {
    if hi > lo {
      FilterMeaning(ok, lo, hi - 1);
      var f := Filter(ok, lo, hi - 1);
      if ok(hi - 1) {
        var h := f + [hi - 1];
        forall i, j | 0 <= i < j < |h|
          ensures h[i] < h[j]
        {
          if j == |f| {
            assert f[i] in f;
          }
        }
      }
    }
  }

  /** Extending the range by one offset appends that offset when the test accepts it. */
  lemma FilterStep(ok: int -> bool, lo: int, hi: int)
    requires lo <= hi
    ensures Filter(ok, lo, hi + 1) == Filter(ok, lo, hi) + (if ok(hi) then [hi] else [])
  {
  }

  /** Two ascending sequences with the same elements are equal. */
  lemma {:induction false} AscendingSame(s: seq<int>, t: seq<int>)
    requires Ascending(s) && Ascending(t)
    requires forall x :: x in s <==> x in t
    ensures s == t
    decreases |s|
  {
    if t != [] {
      assert t[0] in t;
    }
    if s != [] {
      AscendingHeads(s, t);
      AscendingTails(s, t);
      AscendingSame(s[1..], t[1..]);
      assert s == [s[0]] + s[1..];
      assert t == [t[0]] + t[1..];
    }
  }

  /** Two non-empty ascending sequences with the same elements start alike. */
  lemma AscendingHeads(s: seq<int>, t: seq<int>)
    requires Ascending(s) && Ascending(t) && s != []
    requires forall x :: x in s <==> x in t
    ensures t != [] && s[0] == t[0]
  {
    assert s[0] in s;
    var i :| 0 <= i < |t| && t[i] == s[0];
    assert t[0] in t;
    var j :| 0 <= j < |s| && s[j] == t[0];
    assert t[0] <= t[i] && s[0] <= s[j];
  }

  /** ... and so their tails have the same elements. */
  lemma AscendingTails(s: seq<int>, t: seq<int>)
    requires Ascending(s) && Ascending(t) && s != [] && t != [] && s[0] == t[0]
    requires forall x :: x in s <==> x in t
    ensures forall x :: x in s[1..] <==> x in t[1..]
  {
    forall x
      ensures x in s[1..] <==> x in t[1..]
    {
      if x in s[1..] {
        var k :| 0 <= k < |s| - 1 && s[1..][k] == x;
        assert s[k + 1] == x && x in t && x != t[0];
      }
      if x in t[1..] {
        var k :| 0 <= k < |t| - 1 && t[1..][k] == x;
        assert t[k + 1] == x && x in s && x != s[0];
      }
    }
  }

  /** A successful drop keeps the box between the side walls. */
  lemma DropWithinWalls(g: seq<Row>, cells: seq<Pos>)
    requires WellFormed(g) && InBox(cells)
    ensures forall x :: DropShape(g, cells, x).Some? ==> -MinX(cells) <= x < WIDTH - MaxX(cells)
  {
  }

  /** The test "the drop at this offset succeeds", as a function of the offset. */
  function Droppable(g: seq<Row>, cells: seq<Pos>): (ok: int -> bool)
    requires WellFormed(g) && InBox(cells)
    ensures forall x :: ok(x) == DropShape(g, cells, x).Some?
  {
    x => DropShape(g, cells, x).Some?
  }

  /** The columns offered for a shape: the offsets from the one that puts its leftmost
      cell in the first column to the one that puts its rightmost cell in the last
      column, kept when the drop succeeds. They are exactly the offsets at which the
      drop succeeds, in ascending order. */
  function ColumnsOf(g: seq<Row>, cells: seq<Pos>): (cols: seq<int>)
    requires WellFormed(g) && InBox(cells)
    ensures forall x :: x in cols <==> DropShape(g, cells, x).Some?
    ensures Ascending(cols)
  {
    var ok, lo, hi := Droppable(g, cells), -MinX(cells), WIDTH - MaxX(cells);
    FilterMeaning(ok, lo, hi);
    DropWithinWalls(g, cells);
    Filter(ok, lo, hi)
  }

  /** The columns offered for a piece in a rotation. */
  function Columns(g: seq<Row>, piece: char, rotation: int): (cols: seq<int>)
    requires WellFormed(g) && piece in PIECES
    ensures forall x :: x in cols <==> Drop(g, piece, rotation, x).Some?
    ensures Ascending(cols)
  {
    ColumnsOf(g, Shape(piece, rotation))
  }

  /** Lists the valid columns, trying the offsets from left to right. */
  method ValidColumns(g: seq<Row>, piece: char, rotation: int) returns (cols: seq<int>)
    requires WellFormed(g) && piece in PIECES
    ensures forall x :: x in cols <==> Drop(g, piece, rotation, x).Some?
    ensures Ascending(cols)
    ensures cols == Columns(g, piece, rotation)
  {
    var cells := Shape(piece, rotation);
    var minX := -MinX(cells);
    var maxX := WIDTH - 1 - MaxX(cells);
    cols := [];
    ghost var ok := Droppable(g, cells);
    for x := minX to maxX + 1
      invariant cols == Filter(ok, minX, x)
    {
      var pos := DropSearch(g, cells, x);
      FilterStep(ok, minX, x);
      if pos.Some? {
        cols := cols + [x];
      }
    }
    FilterMeaning(ok, minX, maxX + 1);
    DropWithinWalls(g, cells);
    AscendingSame(cols, Columns(g, piece, rotation));
  }

  /** The move picked from the column lists of rotations rot, rot + 1, ...: the middle
      column of the first non-empty list, or rotation 0 at offset 0 when all are empty. */
  function PickAmong(table: seq<seq<int>>, rot: nat): Move
    requires rot <= |table|
    decreases |table| - rot
  {
    if rot == |table| then Move(0, 0)
    else if |table[rot]| > 0 then Move(rot, table[rot][|table[rot]| / 2])
    else PickAmong(table, rot + 1)
  }

  /** The pick is the middle column of the first non-empty list from rot on, or the
      default move when there is none. */
  lemma {:induction false} PickAmongMeaning(table: seq<seq<int>>, rot: nat)
    requires rot <= |table|
    ensures var m := PickAmong(table, rot);
      if exists r :: rot <= r < |table| && table[r] != [] then
        && rot <= m.rot < |table|
        && table[m.rot] != []
        && m.x == table[m.rot][|table[m.rot]| / 2]
        && m.x in table[m.rot]
        && forall r :: rot <= r < m.rot ==> table[r] == []
      else m == Move(0, 0)
    decreases |table| - rot
  {
    if rot < |table| && table[rot] == [] {
      PickAmongMeaning(table, rot + 1);
    }
  }

  /** The valid columns of the four rotations of a piece. */
  function ColumnTable(g: seq<Row>, piece: char): (t: seq<seq<int>>)
    requires WellFormed(g) && piece in PIECES
    ensures |t| == 4 && forall r :: 0 <= r < 4 ==> t[r] == Columns(g, piece, r)
  {
    seq(4, r => Columns(g, piece, r))
  }

  /** The move made for a player who did not choose one. */
  function AutoPick(g: seq<Row>, piece: char): Move
    requires WellFormed(g) && piece in PIECES
  {
    PickAmong(ColumnTable(g, piece), 0)
  }

  /** Some rotation of the piece has an offset at which it can be dropped. */
  ghost predicate CanDrop(g: seq<Row>, piece: char)
    requires WellFormed(g) && piece in PIECES
  {
    exists rot, x :: 0 <= rot < 4 && Drop(g, piece, rot, x).Some?
  }

  /** When some rotation of the piece has a valid column, the automatic move takes the
      lowest such rotation and the middle one of its columns. */
  lemma AutoPickChoice(g: seq<Row>, piece: char, rot: int)
    requires WellFormed(g) && piece in PIECES && 0 <= rot < 4 && ColumnTable(g, piece)[rot] != []
    ensures var t, m := ColumnTable(g, piece), AutoPick(g, piece);
      && 0 <= m.rot <= rot
      && t[m.rot] != []
      && m.x == t[m.rot][|t[m.rot]| / 2]
      && m.x in t[m.rot]
      && forall r :: 0 <= r < m.rot ==> t[r] == []
  {
    var t := ColumnTable(g, piece);
    PickAmongMeaning(t, 0);
    assert 0 <= rot < |t| && t[rot] != [];
  }

  /** When some move can be dropped, so can the automatic move. */
  lemma AutoPickDrops(g: seq<Row>, piece: char, rot: int, x: int)
    requires WellFormed(g) && piece in PIECES && 0 <= rot < 4 && Drop(g, piece, rot, x).Some?
    ensures 0 <= AutoPick(g, piece).rot < 4
    ensures Drop(g, piece, AutoPick(g, piece).rot, AutoPick(g, piece).x).Some?
  {
    var t := ColumnTable(g, piece);
    assert x in t[rot];
    AutoPickChoice(g, piece, rot);
    var m := AutoPick(g, piece);
    assert m.x in Columns(g, piece, m.rot);
  }

  /** The first valid column of a rotation is one at which the piece can be dropped. */
  lemma FirstColumnDrops(g: seq<Row>, piece: char, rot: int)
    requires WellFormed(g) && piece in PIECES && 0 <= rot < 4 && ColumnTable(g, piece)[rot] != []
    ensures Drop(g, piece, rot, ColumnTable(g, piece)[rot][0]).Some?
  {
    assert ColumnTable(g, piece)[rot][0] in Columns(g, piece, rot);
  }

  /** When no move can be dropped, the automatic move is rotation 0 at offset 0, which
      cannot be dropped either. */
  lemma AutoPickStuck(g: seq<Row>, piece: char)
    requires WellFormed(g) && piece in PIECES && !CanDrop(g, piece)
    ensures AutoPick(g, piece) == Move(0, 0) && Drop(g, piece, 0, 0).None?
  {
    var t := ColumnTable(g, piece);
    forall r | 0 <= r < 4
      ensures t[r] == []
    {
      if t[r] != [] {
        FirstColumnDrops(g, piece, r);
        assert false;
      }
    }
    PickAmongMeaning(t, 0);
  }

  // ---------------------------------------------------------------------------
  // Locking a piece and clearing full rows

  /** Every cell of the row is filled. */
  predicate Full(row: Row) {
    forall x :: 0 <= x < |row| ==> row[x] != Empty
  }

  /** The number of full rows. */
  function CountFull(rows: seq<Row>): (n: nat)
    ensures n <= |rows|
  {
    if rows == [] then 0 else (if Full(rows[0]) then 1 else 0) + CountFull(rows[1..])
  }

  /** The rows that are not full, in their order. */
  function Kept(rows: seq<Row>): (r: seq<Row>)
    ensures |r| + CountFull(rows) == |rows|
  {
    if rows == [] then [] else (if Full(rows[0]) then [] else [rows[0]]) + Kept(rows[1..])
  }

  /** The kept rows are rows of the grid, none of them full. */
  lemma {:induction false} KeptMeaning(rows: seq<Row>)
    ensures forall i :: 0 <= i < |Kept(rows)| ==> !Full(Kept(rows)[i]) && Kept(rows)[i] in rows
  {
    if rows != [] {
      KeptMeaning(rows[1..]);
      var head := if Full(rows[0]) then [] else [rows[0]];
      forall i | 0 <= i < |Kept(rows)|
        ensures !Full(Kept(rows)[i]) && Kept(rows)[i] in rows
      {
        if i >= |head| {
          assert Kept(rows)[i] == Kept(rows[1..])[i - |head|];
          assert Kept(rows[1..])[i - |head|] in rows[1..];
        }
      }
    }
  }

  /** n empty rows. */
  function Blanks(n: nat): (r: seq<Row>)
    ensures |r| == n && forall i :: 0 <= i < n ==> r[i] == EmptyRow()
  {
    seq(n, _ => EmptyRow())
  }

  /** The rows after removing the full ones: the others keep their order at the bottom,
      and an empty row fills the top for each row removed. */
  function Cleared(rows: seq<Row>): seq<Row> {
    Blanks(CountFull(rows)) + Kept(rows)
  }

  /** Clearing keeps the grid's dimensions and leaves no full row. */
  lemma ClearedMeaning(rows: seq<Row>)
    requires WellFormed(rows)
    ensures WellFormed(Cleared(rows))
    ensures forall y :: 0 <= y < HEIGHT ==> !Full(Cleared(rows)[y])
    ensures forall y :: 0 <= y < CountFull(rows) ==> Cleared(rows)[y] == EmptyRow()
  {
    var c := Cleared(rows);
    var n := CountFull(rows);
    KeptMeaning(rows);
    forall y | 0 <= y < HEIGHT
      ensures |c[y]| == WIDTH && !Full(c[y])
    {
      if y < n {
        assert c[y] == EmptyRow() && c[y][0] == Empty;
      } else {
        assert c[y] == Kept(rows)[y - n];
        assert c[y] in rows;
      }
    }
  }

  /** The index of the first cell above the top row, or |cells| when there is none. */
  function FirstAbove(cells: seq<Pos>): (k: nat)
    ensures k <= |cells|
    ensures forall i :: 0 <= i < k ==> cells[i].1 >= 0
    ensures k < |cells| ==> cells[k].1 < 0
  {
    if cells == [] || cells[0].1 < 0 then 0 else 1 + FirstAbove(cells[1..])
  }

  /** The first cell above the top row is at i when the cells before i are all at or
      below it and i is past the end or above it. */
  lemma FirstAboveAt(cells: seq<Pos>, i: int)
    requires 0 <= i <= |cells| && forall j :: 0 <= j < i ==> cells[j].1 >= 0
    requires i < |cells| ==> cells[i].1 < 0
    ensures FirstAbove(cells) == i
  {
  }

  /** Positions between the side walls and above the bottom row (possibly above the
      top row). */
  predicate OnGrid(cells: seq<Pos>) {
    forall i :: 0 <= i < |cells| ==> 0 <= cells[i].0 < WIDTH && cells[i].1 < HEIGHT
  }

  /** Positions inside the grid. */
  predicate InGrid(cells: seq<Pos>) {
    forall i :: 0 <= i < |cells| ==> 0 <= cells[i].0 < WIDTH && 0 <= cells[i].1 < HEIGHT
  }

  /** The grid with the cells written with a piece name, one after another. */
  function Write(g: seq<Row>, name: char, cells: seq<Pos>): (h: seq<Row>)
    requires WellFormed(g) && InGrid(cells)
    ensures WellFormed(h)
    decreases |cells|
  {
    if cells == [] then g
    else
      var h := Write(g, name, cells[..|cells| - 1]);
      var (x, y) := cells[|cells| - 1];
      h[y := h[y][x := Filled(name)]]
  }

  /** Writing fills exactly the given cells with the name and leaves every other cell. */
  lemma {:induction false} WriteMeaning(g: seq<Row>, name: char, cells: seq<Pos>)
    requires WellFormed(g) && InGrid(cells)
    ensures forall y, x :: 0 <= y < HEIGHT && 0 <= x < WIDTH ==>
      Write(g, name, cells)[y][x] == if (x, y) in cells then Filled(name) else g[y][x]
    decreases |cells|
  {
    if cells != [] {
      var front := cells[..|cells| - 1];
      WriteMeaning(g, name, front);
      forall y, x | 0 <= y < HEIGHT && 0 <= x < WIDTH
        ensures Write(g, name, cells)[y][x] == if (x, y) in cells then Filled(name) else g[y][x]
      {
        assert (x, y) in cells <==> (x, y) in front || (x, y) == cells[|cells| - 1] by {
          assert cells == front + [cells[|cells| - 1]];
        }
      }
    }
  }

  /** What locking a piece does: when some cell lies above the top row, -1 and the grid
      with the cells before it written; otherwise the number of full rows and the grid
      with them cleared. */
  function Locked(g: seq<Row>, name: char, cells: seq<Pos>): (int, seq<Row>)
    requires WellFormed(g) && OnGrid(cells)
  {
    var k := FirstAbove(cells);
    var w := Write(g, name, cells[..k]);
    if k < |cells| then (-1, w) else (CountFull(w) as int, Cleared(w))
  }

  /** Locking fails with -1 exactly when a cell lies above the top row. Otherwise it
      reports how many rows of the written grid were full, puts that many empty rows on
      top, and leaves a grid of the same dimensions with no full row. */
  lemma LockedMeaning(g: seq<Row>, name: char, cells: seq<Pos>)
    requires WellFormed(g) && OnGrid(cells)
    ensures WellFormed(Locked(g, name, cells).1)
    ensures Locked(g, name, cells).0 == -1 <==> exists i :: 0 <= i < |cells| && cells[i].1 < 0
    ensures Locked(g, name, cells).0 >= 0 ==>
      && InGrid(cells)
      && Locked(g, name, cells).0 == CountFull(Write(g, name, cells))
      && Locked(g, name, cells).1 == Cleared(Write(g, name, cells))
      && (forall y :: 0 <= y < Locked(g, name, cells).0 ==> Locked(g, name, cells).1[y] == EmptyRow())
      && (forall y :: 0 <= y < HEIGHT ==> !Full(Locked(g, name, cells).1[y]))
  {
    var k := FirstAbove(cells);
    if k == |cells| {
      assert cells[..k] == cells;
      ClearedMeaning(Write(g, name, cells));
    }
  }

  /** Unfolding the count and the kept rows at the front of a suffix. */
  lemma KeptStep(w: seq<Row>, m: int)
    requires 0 < m <= |w|
    ensures CountFull(w[m - 1..]) == (if Full(w[m - 1]) then 1 else 0) + CountFull(w[m..])
    ensures Kept(w[m - 1..]) == (if Full(w[m - 1]) then [] else [w[m - 1]]) + Kept(w[m..])
  {
    assert w[m - 1..][1..] == w[m..];
  }

  /** The clearing scan at a full row of the written grid: deleting it and inserting an
      empty row on top moves it from the unscanned part to the blank rows. */
  lemma ClearFullStep(w: seq<Row>, m: int, c: nat, r: seq<Row>, y: int)
    requires 0 < m <= |w| && Full(w[m - 1]) && c == CountFull(w[m..])
    requires r == Blanks(c) + w[..m] + Kept(w[m..]) && y == c + m - 1
    ensures 0 <= y < |r| && r[y] == w[m - 1]
    ensures [EmptyRow()] + (r[..y] + r[y + 1..]) == Blanks(c + 1) + w[..m - 1] + Kept(w[m - 1..])
    ensures c + 1 == CountFull(w[m - 1..])
  {
    KeptStep(w, m);
    BlanksCons(c);
    assert w[..m][..m - 1] == w[..m - 1];
    SpliceOut(EmptyRow(), Blanks(c), w[..m], Kept(w[m..]), y, Blanks(c + 1), w[..m - 1]);
  }

  /** One more blank row is an empty row on top of the others. */
  lemma BlanksCons(c: nat)
    ensures Blanks(c + 1) == [EmptyRow()] + Blanks(c)
  {
  }

  /** The clearing scan at a row of the written grid that is not full: it stays, and the
      scan moves up past it. */
  lemma ClearKeepStep(w: seq<Row>, m: int, c: nat, r: seq<Row>)
    requires 0 < m <= |w| && !Full(w[m - 1]) && c == CountFull(w[m..])
    requires r == Blanks(c) + w[..m] + Kept(w[m..])
    ensures r[c + m - 1] == w[m - 1]
    ensures r == Blanks(c) + w[..m - 1] + Kept(w[m - 1..])
    ensures c == CountFull(w[m - 1..])
  {
    KeptStep(w, m);
    assert w[..m] == w[..m - 1] + [w[m - 1]];
  }

  /** The row the clearing scan looks at, with m rows of the written grid w still unscanned
      and c rows deleted: the topmost unscanned row of w, or a blank row once the scan has
      passed them all. */
  lemma ClearAt(w: seq<Row>, m: int, c: nat, r: seq<Row>, y: int)
    requires |w| == HEIGHT && 0 <= y < HEIGHT && 0 <= m <= HEIGHT
    requires m > 0 ==> y + 1 == c + m
    requires m == 0 ==> y + 1 <= c
    requires c == CountFull(w[m..])
    requires r == Blanks(c) + w[..m] + Kept(w[m..])
    ensures 0 <= y < |r|
    ensures m > 0 ==> r[y] == w[m - 1]
    ensures m == 0 ==> !Full(r[y])
  {
    if m == 0 {
      assert r[y] == EmptyRow() && r[y][0] == Empty;
    }
  }

  /** Deleting the last element of the middle piece p of b + p + k, which sits at y, and
      putting e in front gives ([e] + b) + p without its last element + k. */
  lemma SpliceOut<T>(e: T, b: seq<T>, p: seq<T>, k: seq<T>, y: int, eb: seq<T>, front: seq<T>)
    requires |p| > 0 && y == |b| + |p| - 1 && eb == [e] + b && front == p[..|p| - 1]
    ensures (b + p + k)[y] == p[|p| - 1]
    ensures [e] + ((b + p + k)[..y] + (b + p + k)[y + 1..]) == eb + front + k
  {
    var r := b + p + k;
    assert r[..y] == b + front;
    assert r[y + 1..] == k;
  }

  /** The grid of one game board, updated in place. */
  class Grid {
    var rows: seq<Row>

    constructor()
      ensures rows == EmptyGrid()
    {
      rows := EmptyGrid();
    }

    /** Writes the piece's cells in order, giving up with -1 at the first cell above the
        top row; then clears the full rows and reports how many there were. */
    method LockAndClear(name: char, cells: seq<Pos>) returns (cleared: int)
      requires WellFormed(rows) && OnGrid(cells)
      modifies this
      ensures (cleared, rows) == Locked(old(rows), name, cells)
    {
      var k := WriteCells(name, cells);
      if k < |cells| {
        return -1;
      }
      assert cells[..k] == cells;
      cleared := ClearFull();
    }

    /** Writes the cells one after another, stopping at the first one above the top row,
        whose index it returns (|cells| when every cell was written). */
    method WriteCells(name: char, cells: seq<Pos>) returns (k: int)
      requires WellFormed(rows) && OnGrid(cells)
      modifies this
      ensures k == FirstAbove(cells)
      ensures rows == Write(old(rows), name, cells[..k])
    {
      ghost var g := rows;
      for i := 0 to |cells|
        invariant forall j :: 0 <= j < i ==> cells[j].1 >= 0
        invariant rows == Write(g, name, cells[..i])
      {
        var (x, y) := cells[i];
        if y < 0 {
          FirstAboveAt(cells, i);
          return i;
        }
        assert cells[..i + 1][..i] == cells[..i];
        rows := rows[y := rows[y][x := Filled(name)]];
      }
      FirstAboveAt(cells, |cells|);
      k := |cells|;
    }

    /** Scans from the bottom row up, deleting each full row and inserting an empty row on
        top; the scan stays on the same row after a deletion. */
    method ClearFull() returns (cleared: int)
      requires WellFormed(rows)
      modifies this
      ensures cleared == CountFull(old(rows)) && rows == Cleared(old(rows))
    {
      ghost var w := rows;
      assert |w| == HEIGHT;
      var r := rows;
      cleared := 0;
      var y := HEIGHT - 1;
      ghost var m := HEIGHT;
      while y >= 0
        invariant -1 <= y < HEIGHT && 0 <= m <= HEIGHT
        invariant m > 0 ==> y + 1 == cleared + m
        invariant m == 0 ==> y + 1 <= cleared
        invariant cleared == CountFull(w[m..])
        invariant r == Blanks(cleared) + w[..m] + Kept(w[m..])
        decreases y + m
      {
        ClearAt(w, m, cleared, r, y);
        if Full(r[y]) {
          ClearFullStep(w, m, cleared, r, y);
          r := [EmptyRow()] + (r[..y] + r[y + 1..]);
          cleared := cleared + 1;
          m := m - 1;
        } else {
          if m > 0 {
            ClearKeepStep(w, m, cleared, r);
            m := m - 1;
          }
          y := y - 1;
        }
      }
      rows := r;
      assert w[..m] == [] && w[m..] == w;
    }
  }
}
