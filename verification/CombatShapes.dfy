/** The areas a spell covers: a matrix of cells around a centre, and its turned and reflected copies. */
module CombatShapes {
  import opened Arithmetic
  import opened Route

  /** A matrix by its size, its centre and the cells that are set, as (row, column). */
  datatype Matrix = Matrix(rows: nat, cols: nat, centerY: uint16, centerX: uint16, cells: set<(int, int)>)

  predicate InBounds(m: Matrix) {
    forall c :: c in m.cells ==> 0 <= c.0 < m.rows && 0 <= c.1 < m.cols
  }

  /** Whether the square at some distance from the centre is covered. */
  predicate Covers(m: Matrix, dx: int, dy: int) {
    (m.centerY + dy, m.centerX + dx) in m.cells
  }

  datatype Turn = QUARTER | HALF | THREE_QUARTERS

  /** Where a turn takes an offset: clockwise, rows growing downwards. */
  function TurnX(t: Turn, dx: int, dy: int): int {
    match t case QUARTER => -dy case HALF => -dx case THREE_QUARTERS => dy
  }

  function TurnY(t: Turn, dx: int, dy: int): int {
    match t case QUARTER => dx case HALF => -dy case THREE_QUARTERS => -dx
  }

  /** The size of the matrices that take turned copies. */
  function Output(m: Matrix): nat {
    Max(m.cols, m.rows) * 2
  }

  /** Where a cell goes when turned, in a matrix with its centre at `r`. */
  function TurnedCell(m: Matrix, t: Turn, r: int, c: (int, int)): (int, int) {
    (TurnY(t, c.1 - m.centerX, c.0 - m.centerY) + r, TurnX(t, c.1 - m.centerX, c.0 - m.centerY) + r)
  }

  function Turned(m: Matrix, t: Turn, n: nat): Matrix
    requires n >= 2
  {
    var r := n / 2 - 1;
    Matrix(n, n, Wrapped(r), Wrapped(r), set c | c in m.cells :: TurnedCell(m, t, r, c))
  }

  /** The columns in reverse order.  The new centre is counted from the number of rows. */
  function Mirrored(m: Matrix, n: nat): Matrix {
    Matrix(n, n, m.centerY, Wrapped(m.rows - 1 - m.centerX), set c | c in m.cells :: (c.0, m.cols - 1 - c.1))
  }

  /** The rows in reverse order.  The new centre is counted from the number of columns. */
  function Flipped(m: Matrix, n: nat): Matrix {
    Matrix(n, n, Wrapped(m.cols - 1 - m.centerY), m.centerX, set c | c in m.cells :: (m.rows - 1 - c.0, c.1))
  }

  predicate Sensible(m: Matrix) {
    InBounds(m) && m.rows < 0x1_0000 && m.cols < 0x1_0000 && m.centerY < m.rows && m.centerX < m.cols
  }

  // ---------------------------------------------------------------- turning

  lemma TurnedFits(m: Matrix, t: Turn)
    requires Sensible(m)
    ensures Output(m) >= 2 && InBounds(Turned(m, t, Output(m)))
    ensures Turned(m, t, Output(m)).centerY == Turned(m, t, Output(m)).centerX == Output(m) / 2 - 1
  {
  }

  lemma TurnedAt(m: Matrix, t: Turn, dx: int, dy: int)
    requires Sensible(m)
    ensures Output(m) >= 2
    ensures Covers(Turned(m, t, Output(m)), TurnX(t, dx, dy), TurnY(t, dx, dy)) <==> Covers(m, dx, dy)
  {
    TurnedFits(m, t);
    var r := Output(m) / 2 - 1;
    TurnedCellIs(m, t, r, dx, dy);
    hide TurnedCell, Sensible, InBounds;
    assert Turned(m, t, Output(m)).cells == set c | c in m.cells :: TurnedCell(m, t, r, c);
  }

  /** The one cell that is turned to an offset. */
  lemma TurnedCellIs(m: Matrix, t: Turn, r: int, dx: int, dy: int)
    ensures forall c :: TurnedCell(m, t, r, c) == (r + TurnY(t, dx, dy), r + TurnX(t, dx, dy)) <==>
              c == (m.centerY + dy, m.centerX + dx)
  {
  }

  /** No two cells go to the same place. */
  lemma NoCellIsLost(m: Matrix, t: Turn, n: nat)
    requires n >= 2
    ensures |Turned(m, t, n).cells| == |m.cells|
  {
    var r := n / 2 - 1;
    forall c, d | TurnedCell(m, t, r, c) == TurnedCell(m, t, r, d) ensures c == d {
    }
    hide TurnedCell;
    SameSize(m.cells, Turned(m, t, n).cells, c => TurnedCell(m, t, r, c));
  }

  /** A turned copy covers what the original covers, turned about the centre; no cell is lost, and all fit. */
  lemma TurnedCovers(m: Matrix, t: Turn)
    requires Sensible(m)
    ensures Output(m) >= 2 && InBounds(Turned(m, t, Output(m)))
    ensures forall dx, dy :: Covers(Turned(m, t, Output(m)), TurnX(t, dx, dy), TurnY(t, dx, dy)) <==> Covers(m, dx, dy)
    ensures |Turned(m, t, Output(m)).cells| == |m.cells|
  {
    hide Covers, Turned;
    NoCellIsLost(m, t, Output(m));
    TurnedFits(m, t);
    forall dx, dy ensures Covers(Turned(m, t, Output(m)), TurnX(t, dx, dy), TurnY(t, dx, dy)) <==> Covers(m, dx, dy) {
      TurnedAt(m, t, dx, dy);
    }
  }

  lemma {:induction false} SameSize(a: set<(int, int)>, b: set<(int, int)>, f: ((int, int)) -> (int, int))
    requires forall c, d :: c in a && d in a && c != d ==> f(c) != f(d)
    requires forall c :: c in a ==> f(c) in b
    requires forall d :: d in b ==> exists c :: c in a && f(c) == d
    ensures |a| == |b|
  {
    if a == {} {
      assert b == {};
    } else {
      var x :| x in a;
      SameSize(a - {x}, b - {f(x)}, f);
    }
  }

  /** Four quarter turns are none, two are half a turn, three are three quarters. */
  lemma TurnsAddUp(dx: int, dy: int)
    ensures var (x1, y1) := (TurnX(QUARTER, dx, dy), TurnY(QUARTER, dx, dy));
            var (x2, y2) := (TurnX(QUARTER, x1, y1), TurnY(QUARTER, x1, y1));
            var (x3, y3) := (TurnX(QUARTER, x2, y2), TurnY(QUARTER, x2, y2));
            && (x2, y2) == (TurnX(HALF, dx, dy), TurnY(HALF, dx, dy))
            && (x3, y3) == (TurnX(THREE_QUARTERS, dx, dy), TurnY(THREE_QUARTERS, dx, dy))
            && (TurnX(QUARTER, x3, y3), TurnY(QUARTER, x3, y3)) == (dx, dy)
  {
  }

  /** What points north points east after a quarter turn, south after two and west after three. */
  lemma TurnsPointRight(d: int)
    ensures (TurnX(QUARTER, 0, -d), TurnY(QUARTER, 0, -d)) == (d, 0)
    ensures (TurnX(HALF, 0, -d), TurnY(HALF, 0, -d)) == (0, d)
    ensures (TurnX(THREE_QUARTERS, 0, -d), TurnY(THREE_QUARTERS, 0, -d)) == (-d, 0)
  {
  }

  // ---------------------------------------------------------------- reflecting

  /** Mirroring reflects about the centre, and then shifts by as much as there are more columns than rows. */
  lemma MirroredAt(m: Matrix, n: nat, dx: int, dy: int)
    ensures Covers(Mirrored(m, n), dx, dy) <==>
              Covers(m, m.cols - 1 - m.centerX - Mirrored(m, n).centerX - dx, dy)
  {
    var x := Mirrored(m, n).centerX + dx;
    var c := (m.centerY + dy, m.cols - 1 - x);
    assert c in m.cells ==> (c.0, m.cols - 1 - c.1) in Mirrored(m, n).cells;
  }

  lemma FlippedAt(m: Matrix, n: nat, dx: int, dy: int)
    ensures Covers(Flipped(m, n), dx, dy) <==>
              Covers(m, dx, m.rows - 1 - m.centerY - Flipped(m, n).centerY - dy)
  {
    var y := Flipped(m, n).centerY + dy;
    var c := (m.rows - 1 - y, m.centerX + dx);
    assert c in m.cells ==> (m.rows - 1 - c.0, c.1) in Flipped(m, n).cells;
  }

  ghost predicate MirrorImage(m: Matrix, r: Matrix) {
    forall dx, dy :: Covers(r, dx, dy) <==> Covers(m, -dx, dy)
  }

  ghost predicate FlipImage(m: Matrix, r: Matrix) {
    forall dx, dy :: Covers(r, dx, dy) <==> Covers(m, dx, -dy)
  }

  /** A mirrored copy is the mirror image exactly if the matrix is square, or covers nothing. */
  lemma MirroredIffSquare(m: Matrix, n: nat)
    requires Sensible(m)
    ensures MirrorImage(m, Mirrored(m, n)) <==> m.rows == m.cols || m.cells == {}
  {
    var r := Mirrored(m, n);
    var s := m.cols - 1 - m.centerX - r.centerX;
    forall dx, dy ensures Covers(r, dx, dy) <==> Covers(m, s - dx, dy) {
      MirroredAt(m, n, dx, dy);
    }
    if MirrorImage(m, r) && m.cells != {} {
      var c :| c in m.cells;
      assert Covers(m, c.1 - m.centerX, c.0 - m.centerY);
      if s != 0 {
        forall dx, dy | Covers(m, dx, dy) ensures Covers(m, dx + s, dy) {
          assert Covers(r, -dx, dy);
        }
        Endless(m, s, 0, c.1 - m.centerX, c.0 - m.centerY);
      }
    }
  }

  /** Nothing finite is covered by its own shift. */
  lemma {:induction false} Endless(m: Matrix, sx: int, sy: int, dx: int, dy: int)
    requires InBounds(m) && (sx != 0 || sy != 0) && Covers(m, dx, dy)
    requires forall x, y :: Covers(m, x, y) ==> Covers(m, x + sx, y + sy)
    ensures false
    decreases if sx > 0 then m.cols - (m.centerX + dx) else if sx < 0 then m.centerX + dx
              else if sy > 0 then m.rows - (m.centerY + dy) else m.centerY + dy
  {
    Endless(m, sx, sy, dx + sx, dy + sy);
  }

  /** And a flipped copy is the flipped image. */
  lemma FlippedIffSquare(m: Matrix, n: nat)
    requires Sensible(m)
    ensures FlipImage(m, Flipped(m, n)) <==> m.rows == m.cols || m.cells == {}
  {
    var r := Flipped(m, n);
    var s := m.rows - 1 - m.centerY - r.centerY;
    forall dx, dy ensures Covers(r, dx, dy) <==> Covers(m, dx, s - dy) {
      FlippedAt(m, n, dx, dy);
    }
    if FlipImage(m, r) && m.cells != {} {
      var c :| c in m.cells;
      assert Covers(m, c.1 - m.centerX, c.0 - m.centerY);
      if s != 0 {
        forall dx, dy | Covers(m, dx, dy) ensures Covers(m, dx, dy + s) {
          assert Covers(r, dx, -dy);
        }
        Endless(m, 0, s, c.1 - m.centerX, c.0 - m.centerY);
      }
    }
  }

  /** The fourth diagonal is a mirrored flipped copy: the image through the centre, again only for square areas. */
  lemma FlippedAndMirroredIffSquare(m: Matrix)
    requires Sensible(m) && m.rows < 0x8000 && m.cols < 0x8000
    ensures var n := Output(m);
            (forall dx, dy :: Covers(Mirrored(Flipped(m, n), n), dx, dy) <==> Covers(m, -dx, -dy))
                <==> m.rows == m.cols || m.cells == {}
  {
    hide Covers;
    var n := Output(m);
    var f := Flipped(m, n);
    var r := Mirrored(f, n);
    FlippedIffSquare(m, n);
    forall dx, dy ensures Covers(r, dx, dy) <==> Covers(f, -dx, dy) {
      MirroredAt(f, n, dx, dy);
    }
    if forall dx, dy :: Covers(r, dx, dy) <==> Covers(m, -dx, -dy) {
      forall dx, dy ensures Covers(f, dx, dy) <==> Covers(m, dx, -dy) {
        assert Covers(r, -dx, dy) <==> Covers(f, dx, dy);
      }
    }
    if FlipImage(m, f) {
      forall dx, dy ensures Covers(r, dx, dy) <==> Covers(m, -dx, -dy) {
        assert Covers(f, -dx, dy) <==> Covers(m, -dx, -dy);
      }
    }
  }

  /** One row of two cells, of which only the centre is covered. */
  const DOT := Matrix(1, 2, 0, 0, {(0, 0)})

  lemma DotIs(n: nat)
    ensures Sensible(DOT) && Mirrored(DOT, n).centerX == 0 && Flipped(DOT, n).centerY == 1
    ensures Covers(DOT, 0, 0) && !Covers(DOT, 1, 0) && !Covers(DOT, 0, -1) && DOT.cells != {}
  {
  }

  /** Its mirrored copy covers the square to the east instead of the centre, its flipped copy the one to the north. */
  lemma ReflectionExamples()
    ensures var r := Mirrored(DOT, Output(DOT)); !MirrorImage(DOT, r) && Covers(r, 1, 0) && !Covers(r, 0, 0)
    ensures var r := Flipped(DOT, Output(DOT)); !FlipImage(DOT, r) && Covers(r, 0, -1) && !Covers(r, 0, 0)
  {
    DotIs(Output(DOT));
    hide Mirrored, Flipped, MirrorImage, FlipImage, Covers, Output, Sensible;
    MirroredAt(DOT, Output(DOT), 0, 0);
    MirroredAt(DOT, Output(DOT), 1, 0);
    FlippedAt(DOT, Output(DOT), 0, 0);
    FlippedAt(DOT, Output(DOT), 0, -1);
    MirroredIffSquare(DOT, Output(DOT));
    FlippedIffSquare(DOT, Output(DOT));
  }
}
