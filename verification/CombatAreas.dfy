/** The code that makes areas and finds the squares they cover. */
module CombatAreas {
  import opened Arithmetic
  import opened CombatShapes
  import opened Route

  class MatrixArea {
    const rows: nat
    const cols: nat
    const data: array2<bool>
    var centerY: uint16
    var centerX: uint16

    ghost predicate Valid() {
      data.Length0 == rows && data.Length1 == cols
    }

    ghost function Cells(): set<(int, int)>
      requires Valid()
      reads data
    {
      set y: int, x: int | 0 <= y < rows && 0 <= x < cols && data[y, x] :: (y, x)
    }

    ghost function Value(): Matrix
      requires Valid()
      reads this, data
    {
      Matrix(rows, cols, centerY, centerX, Cells())
    }

    constructor (rows: nat, cols: nat)
      ensures Valid() && fresh(data) && Value() == Matrix(rows, cols, 0, 0, {})
    {
      this.rows, this.cols, centerY, centerX := rows, cols, 0, 0;
      data := new bool[rows, cols]((y, x) => false);
    }

    method SetValue(row: nat, col: nat, value: bool)
      requires Valid() && row < rows && col < cols
      modifies data
      ensures Cells() == if value then old(Cells()) + {(row, col)} else old(Cells()) - {(row, col)}
    {
      data[row, col] := value;
    }

    method SetCenter(y: int, x: int)
      modifies this
      ensures centerY == Wrapped(y) && centerX == Wrapped(x)
    {
      centerY, centerX := Wrapped(y), Wrapped(x);
    }
  }

  // ---------------------------------------------------------------- cells placed one by one

  /** Where the cells that were looked at went. */
  ghost function Placed(cells: set<(int, int)>, done: set<(int, int)>, f: ((int, int)) -> (int, int)): set<(int, int)> {
    set c | c in cells && c in done :: f(c)
  }

  lemma PlacedStep(cells: set<(int, int)>, done: set<(int, int)>, f: ((int, int)) -> (int, int), c: (int, int))
    requires c !in done && forall a, b :: f(a) == f(b) ==> a == b
    ensures f(c) !in Placed(cells, done, f)
    ensures Placed(cells, done + {c}, f)
            == if c in cells then Placed(cells, done, f) + {f(c)} else Placed(cells, done, f)
  {
    var p, q := Placed(cells, done, f), Placed(cells, done + {c}, f);
    forall d | d in q ensures d in p || (c in cells && d == f(c)) {
    }
  }

  lemma PlacedAll(cells: set<(int, int)>, done: set<(int, int)>, f: ((int, int)) -> (int, int))
    requires cells <= done
    ensures Placed(cells, done, f) == set c | c in cells :: f(c)
  {
  }

  ghost function Rotation(m: Matrix, t: Turn, n: nat): ((int, int)) -> (int, int) {
    c => TurnedCell(m, t, n / 2 - 1, c)
  }

  predicate IsCell(m: Matrix, c: (int, int)) {
    0 <= c.0 < m.rows && 0 <= c.1 < m.cols
  }

  /** Whether a turned cell lies in the matrix that takes the copy. */
  predicate Lands(m: Matrix, t: Turn, c: (int, int)) {
    var d := TurnedCell(m, t, Output(m) / 2 - 1, c);
    0 <= d.0 < Output(m) && 0 <= d.1 < Output(m)
  }

  ghost predicate AllLand(m: Matrix, t: Turn) {
    forall c :: IsCell(m, c) ==> Lands(m, t, c)
  }

  /** An area can be turned if it is empty, or its centre is not beyond the square it lies in. */
  predicate Turnable(m: Matrix) {
    m.rows == 0 || m.cols == 0 || (m.centerY < Max(m.rows, m.cols) && m.centerX < Max(m.rows, m.cols))
  }

  /** All turned copies lie in their matrices exactly for those. */
  lemma TurnableExactly(m: Matrix)
    ensures Turnable(m) <==> AllLand(m, QUARTER) && AllLand(m, HALF) && AllLand(m, THREE_QUARTERS)
  {
    if m.rows > 0 && m.cols > 0 {
      assert IsCell(m, (0, 0));
      CornerLands(m);
    }
    if Turnable(m) {
      forall c, t | IsCell(m, c) ensures Lands(m, t, c) {
      }
    }
  }

  /** The first cell tells whether the centre is beyond. */
  lemma CornerLands(m: Matrix)
    requires m.rows > 0 && m.cols > 0
    ensures Lands(m, HALF, (0, 0)) && Lands(m, QUARTER, (0, 0)) && Lands(m, THREE_QUARTERS, (0, 0)) ==> Turnable(m)
  {
  }

  lemma RotationInjective(m: Matrix, t: Turn, n: nat)
    ensures forall a, b :: Rotation(m, t, n)(a) == Rotation(m, t, n)(b) ==> a == b
  {
  }

  /** Copies one cell to where it belongs. */
  method PlaceCell(input: MatrixArea, output: MatrixArea, y: nat, x: nat, row: nat, col: nat,
                   ghost f: ((int, int)) -> (int, int), ghost done: set<(int, int)>)
    requires input.Valid() && output.Valid() && input.data != output.data && input != output && y < input.rows
    requires x < input.cols
    requires row < output.rows && col < output.cols && f((y, x)) == (row, col) && forall a, b :: f(a) == f(b) ==> a == b
    requires (y, x) !in done && output.Cells() == Placed(input.Cells(), done, f)
    modifies output.data
    ensures input.Value() == old(input.Value())
    ensures output.Cells() == Placed(input.Cells(), done + {(y, x)}, f)
  {
    hide Placed;
    PlacedStep(input.Cells(), done, f, (y, x));
    assert (y, x) in input.Cells() <==> input.data[y, x];
    output.SetValue(row, col, input.data[y, x]);
  }

  lemma RotationAt(m: Matrix, t: Turn, n: nat, x: nat, y: nat)
    ensures Rotation(m, t, n)((y, x))
            == (TurnY(t, x - m.centerX, y - m.centerY) + (n / 2 - 1), TurnX(t, x - m.centerX, y - m.centerY)
                + (n / 2 - 1))
  {
    assert Rotation(m, t, n)((y, x)) == TurnedCell(m, t, n / 2 - 1, (y, x));
  }

  /** Turns an area about its centre, into a larger matrix, unless that has no place for a cell. */
  method Rotate(input: MatrixArea, output: MatrixArea, t: Turn) returns (fits: bool)
    requires input.Valid() && output.Valid() && input.data != output.data && input != output
    requires output.rows == output.cols == Output(input.Value()) && output.rows >= 2 && output.Cells() == {}
    modifies output, output.data
    ensures input.Value() == old(input.Value()) && (fits <==> AllLand(input.Value(), t))
    ensures fits ==> output.Value() == Turned(input.Value(), t, output.rows)
  {
    hide Rotation, TurnX, TurnY, Output, Lands;
    ghost var m, f := input.Value(), Rotation(input.Value(), t, output.rows);
    ghost var done: set<(int, int)> := {};
    var rotateCenter := output.rows / 2 - 1;
    RotationInjective(m, t, output.rows);
    for x := 0 to input.cols
      invariant input.Value() == m && output.Cells() == Placed(m.cells, done, f)
      invariant forall c :: c in done <==> 0 <= c.0 < m.rows && 0 <= c.1 < x
      invariant forall c :: c in done ==> Lands(m, t, c)
    {
      for y := 0 to input.rows
        invariant input.Value() == m && output.Cells() == Placed(m.cells, done, f)
        invariant forall c :: c in done ==> Lands(m, t, c)
        invariant forall c :: c in done <==> (0 <= c.0 < m.rows && 0 <= c.1 < x) || (0 <= c.0 < y && c.1 == x)
      {
        var newX, newY := x - input.centerX, y - input.centerY;
        var rotatedX, rotatedY := TurnX(t, newX, newY), TurnY(t, newX, newY);
        RotationAt(m, t, output.rows, x, y);
        LandsIs(m, t, y, x);
        if !(0 <= rotatedY + rotateCenter < output.rows && 0 <= rotatedX + rotateCenter < output.cols) {
          assert IsCell(m, (y, x));
          return false;
        }
        PlaceCell(input, output, y, x, rotatedY + rotateCenter, rotatedX + rotateCenter, f, done);
        done := done + {(y as int, x as int)};
      }
    }
    PlacedAll(m.cells, done, f);
    output.SetCenter(rotateCenter, rotateCenter);
    RotationMakes(m, t, output.rows);
    fits := true;
  }

  lemma LandsIs(m: Matrix, t: Turn, y: nat, x: nat)
    ensures var r := Output(m) / 2 - 1;
            Lands(m, t, (y, x)) <==>
              && 0 <= TurnY(t, x - m.centerX, y - m.centerY) + r < Output(m)
              && 0 <= TurnX(t, x - m.centerX, y - m.centerY) + r < Output(m)
  {
  }

  lemma RotationMakes(m: Matrix, t: Turn, n: nat)
    requires n >= 2
    ensures (set c | c in m.cells :: Rotation(m, t, n)(c)) == Turned(m, t, n).cells
  {
  }

  ghost function Mirroring(cols: nat): ((int, int)) -> (int, int) {
    (c: (int, int)) => (c.0, cols - 1 - c.1)
  }

  ghost function Flipping(rows: nat): ((int, int)) -> (int, int) {
    (c: (int, int)) => (rows - 1 - c.0, c.1)
  }

  lemma NonePlaced(cells: set<(int, int)>, f: ((int, int)) -> (int, int))
    ensures Placed(cells, {}, f) == {}
  {
  }

  lemma MirroringIs(cols: nat)
    ensures forall y, x :: Mirroring(cols)((y, x)) == (y, cols - 1 - x)
    ensures forall a, b :: Mirroring(cols)(a) == Mirroring(cols)(b) ==> a == b
  {
  }

  lemma MirroringMakes(m: Matrix, n: nat)
    ensures (set c | c in m.cells :: Mirroring(m.cols)(c)) == Mirrored(m, n).cells
  {
  }

  lemma FlippingIs(rows: nat)
    ensures forall y, x :: Flipping(rows)((y, x)) == (rows - 1 - y, x)
    ensures forall a, b :: Flipping(rows)(a) == Flipping(rows)(b) ==> a == b
  {
  }

  lemma FlippingMakes(m: Matrix, n: nat)
    ensures (set c | c in m.cells :: Flipping(m.rows)(c)) == Flipped(m, n).cells
  {
  }

  /** One row, from its last column to the first. */
  method MirrorRow(input: MatrixArea, output: MatrixArea, y: nat, ghost done: set<(int, int)>)
    returns (ghost done': set<(int, int)>)
    requires input.Valid() && output.Valid() && input.data != output.data && input != output
    requires y < input.rows <= output.rows
    requires input.cols <= output.cols && output.Cells() == Placed(input.Cells(), done, Mirroring(input.cols))
    requires forall c :: c in done <==> 0 <= c.0 < y && 0 <= c.1 < input.cols
    modifies output.data
    ensures input.Value() == old(input.Value()) && output.Cells() == Placed(input.Cells(), done', Mirroring(input.cols))
    ensures forall c :: c in done' <==> 0 <= c.0 < y + 1 && 0 <= c.1 < input.cols
  {
    hide Mirroring, Placed;
    ghost var m, f := input.Value(), Mirroring(input.cols);
    MirroringIs(input.cols);
    done' := done;
    var rx: nat, x: nat := 0, input.cols;
    while x > 0
      invariant rx == input.cols - x && x <= input.cols
      invariant input.Value() == m && output.Cells() == Placed(m.cells, done', f)
      invariant forall c :: c in done' <==>
                (0 <= c.0 < y && 0 <= c.1 < input.cols) || (c.0 == y && x <= c.1 < input.cols)
    {
      x := x - 1;
      PlaceCell(input, output, y, x, y, rx, f, done');
      done' := done' + {(y as int, x as int)};
      rx := rx + 1;
    }
  }

  /** Copies an area with its columns in reverse order. */
  method Mirror(input: MatrixArea, output: MatrixArea)
    requires input.Valid() && output.Valid() && input.data != output.data && input != output
    requires output.rows == output.cols >= Max(input.cols, input.rows) && output.Cells() == {}
    modifies output, output.data
    ensures input.Value() == old(input.Value()) && output.Value() == Mirrored(input.Value(), output.rows)
  {
    hide Mirroring, Placed;
    ghost var m, f := input.Value(), Mirroring(input.cols);
    ghost var done: set<(int, int)> := {};
    NonePlaced(m.cells, f);
    for y := 0 to input.rows
      invariant input.Value() == m && output.Cells() == Placed(m.cells, done, f)
      invariant forall c :: c in done <==> 0 <= c.0 < y && 0 <= c.1 < m.cols
    {
      done := MirrorRow(input, output, y, done);
    }
    PlacedAll(m.cells, done, f);
    MirroringMakes(m, output.rows);
    output.SetCenter(input.centerY, input.rows - 1 - input.centerX);
  }

  /** One column, from its last row to the first. */
  method FlipColumn(input: MatrixArea, output: MatrixArea, x: nat, ghost done: set<(int, int)>)
    returns (ghost done': set<(int, int)>)
    requires input.Valid() && output.Valid() && input.data != output.data && input != output
    requires x < input.cols <= output.cols
    requires input.rows <= output.rows && output.Cells() == Placed(input.Cells(), done, Flipping(input.rows))
    requires forall c :: c in done <==> 0 <= c.0 < input.rows && 0 <= c.1 < x
    modifies output.data
    ensures input.Value() == old(input.Value()) && output.Cells() == Placed(input.Cells(), done', Flipping(input.rows))
    ensures forall c :: c in done' <==> 0 <= c.0 < input.rows && 0 <= c.1 < x + 1
  {
    hide Flipping, Placed;
    ghost var m, f := input.Value(), Flipping(input.rows);
    FlippingIs(input.rows);
    done' := done;
    var ry: nat, y: nat := 0, input.rows;
    while y > 0
      invariant ry == input.rows - y && y <= input.rows
      invariant input.Value() == m && output.Cells() == Placed(m.cells, done', f)
      invariant forall c :: c in done' <==>
                (0 <= c.0 < input.rows && 0 <= c.1 < x) || (y <= c.0 < input.rows && c.1 == x)
    {
      y := y - 1;
      PlaceCell(input, output, y, x, ry, x, f, done');
      done' := done' + {(y as int, x as int)};
      ry := ry + 1;
    }
  }

  /** Copies an area with its rows in reverse order. */
  method Flip(input: MatrixArea, output: MatrixArea)
    requires input.Valid() && output.Valid() && input.data != output.data && input != output
    requires output.rows == output.cols >= Max(input.cols, input.rows) && output.Cells() == {}
    modifies output, output.data
    ensures input.Value() == old(input.Value()) && output.Value() == Flipped(input.Value(), output.rows)
  {
    hide Flipping, Placed;
    ghost var m, f := input.Value(), Flipping(input.rows);
    ghost var done: set<(int, int)> := {};
    NonePlaced(m.cells, f);
    for x := 0 to input.cols
      invariant input.Value() == m && output.Cells() == Placed(m.cells, done, f)
      invariant forall c :: c in done <==> 0 <= c.0 < m.rows && 0 <= c.1 < x
    {
      done := FlipColumn(input, output, x, done);
    }
    PlacedAll(m.cells, done, f);
    FlippingMakes(m, output.rows);
    output.SetCenter(input.cols - 1 - input.centerY, input.centerX);
  }

  method TurnedArea(area: MatrixArea, t: Turn, n: nat) returns (fits: bool, turned: MatrixArea)
    requires area.Valid() && n == Output(area.Value()) >= 2
    ensures turned.Valid() && fresh(turned) && fresh(turned.data) && (fits <==> AllLand(area.Value(), t))
    ensures fits ==> turned.Value() == Turned(area.Value(), t, n)
  {
    turned := new MatrixArea(n, n);
    fits := Rotate(area, turned, t);
  }

  method MirroredArea(area: MatrixArea, n: nat) returns (mirrored: MatrixArea)
    requires area.Valid() && n >= Max(area.cols, area.rows)
    ensures mirrored.Valid() && fresh(mirrored) && fresh(mirrored.data) && mirrored.Value() == Mirrored(area.Value(), n)
  {
    mirrored := new MatrixArea(n, n);
    Mirror(area, mirrored);
  }

  method FlippedArea(area: MatrixArea, n: nat) returns (flipped: MatrixArea)
    requires area.Valid() && n >= Max(area.cols, area.rows)
    ensures flipped.Valid() && fresh(flipped) && fresh(flipped.data) && flipped.Value() == Flipped(area.Value(), n)
  {
    flipped := new MatrixArea(n, n);
    Flip(area, flipped);
  }

  lemma FlippedSize(m: Matrix, n: nat)
    ensures Flipped(m, n).rows == Flipped(m, n).cols == n
  {
  }

  // ---------------------------------------------------------------- areas from lists

  /** The row and column of a place in a list; without columns a row never ends. */
  function CellOf(i: nat, cols: nat): (int, int) {
    if cols == 0 then (0, i) else (i / cols, i % cols)
  }

  /** The last place of a list that marks the centre. */
  function CenterOf(list: seq<nat>): nat {
    if list == [] then 0 else
    if list[|list| - 1] in {2, 3} then |list| - 1 else CenterOf(list[..|list| - 1])
  }

  lemma {:induction false} CenterOfIn(list: seq<nat>)
    ensures CenterOf(list) == 0 || (CenterOf(list) < |list| && list[CenterOf(list)] in {2, 3})
  {
    if list != [] {
      CenterOfIn(list[..|list| - 1]);
    }
  }

  /** Of several marks of a centre the last one counts, and without any it is the first place. */
  lemma {:induction false} CenterIsLast(list: seq<nat>)
    ensures forall i :: CenterOf(list) < i < |list| ==> list[i] !in {2, 3}
    ensures (forall i :: 0 <= i < |list| ==> list[i] !in {2, 3}) ==> CenterOf(list) == 0
  {
    if list != [] && list[|list| - 1] !in {2, 3} {
      CenterIsLast(list[..|list| - 1]);
    }
  }

  /** The area a list describes row by row: 1 for a covered square, 2 for the centre, 3 for both. */
  function Drawn(list: seq<nat>, rows: nat): Matrix
    requires rows > 0
  {
    var cols := |list| / rows;
    Matrix(rows, cols, Wrapped(CellOf(CenterOf(list), cols).0), Wrapped(CellOf(CenterOf(list), cols).1),
           DrawnCells(list, |list|, cols))
  }

  function DrawnCells(list: seq<nat>, n: nat, cols: nat): set<(int, int)>
    requires n <= |list|
  {
    set i: nat | i < n && list[i] in {1, 3} :: CellOf(i, cols)
  }

  lemma OneMoreDrawn(list: seq<nat>, n: nat, cols: nat)
    requires n < |list|
    ensures DrawnCells(list, n + 1, cols)
            == if list[n] in {1, 3} then DrawnCells(list, n, cols) + {CellOf(n, cols)} else DrawnCells(list, n, cols)
  {
    hide CellOf;
  }

  /** Sizes that are good for turned copies with 16 bits. */
  predicate Moderate(list: seq<nat>, rows: nat) {
    0 < rows < 0x8000 && |list| / rows < 0x8000
  }

  /** No square is covered after the last whole row. */
  predicate MarksInside(list: seq<nat>, rows: nat)
    requires rows > 0
  {
    forall i :: rows * (|list| / rows) <= i < |list| ==> list[i] !in {1, 3}
  }

  /** What is left over after the last whole row marks nothing. */
  predicate WholeRows(list: seq<nat>, rows: nat) {
    && Moderate(list, rows) && rows <= |list|
    && forall i :: rows * (|list| / rows) <= i < |list| ==> list[i] !in {1, 2, 3}
  }

  lemma CellIn(i: nat, rows: nat, cols: nat)
    ensures 0 <= CellOf(i, cols).0 && 0 <= CellOf(i, cols).1
    ensures i < rows * cols <==> CellOf(i, cols).0 < rows && CellOf(i, cols).1 < cols
  {
    if cols > 0 {
      DivIn(i, rows, cols);
    }
  }

  lemma Times(a: nat, b: nat, c: nat)
    ensures a <= b ==> a * c <= b * c
  {
  }

  lemma DivIn(i: nat, rows: nat, cols: nat)
    requires cols > 0
    ensures i < rows * cols <==> i / cols < rows
  {
    assert i == i / cols * cols + i % cols;
    Times(rows, i / cols, cols);
    Times(i / cols + 1, rows, cols);
  }

  lemma CellNext(i: nat, cols: nat)
    ensures var (y, x) := CellOf(i, cols); CellOf(i + 1, cols) == if x + 1 == cols then (y + 1, 0) else (y, x + 1)
  {
    if cols == 0 {
      return;
    }
    var q, r := i / cols, i % cols;
    assert i == q * cols + r;
    if r + 1 == cols {
      assert i + 1 == (q + 1) * cols;
      Divides(q + 1, 0, cols);
    } else {
      Divides(q, r + 1, cols);
    }
  }

  lemma Divides(q: nat, r: nat, cols: nat)
    requires r < cols
    ensures (q * cols + r) / cols == q && (q * cols + r) % cols == r
  {
    var i := q * cols + r;
    assert i == i / cols * cols + i % cols;
    Times(q + 1, i / cols, cols);
    Times(i / cols + 1, q, cols);
  }

  lemma AtLeastOne(n: nat, rows: nat)
    requires 0 < rows <= n
    ensures n / rows > 0
  {
  }

  /** What is marked lies in the matrix. */
  lemma MarksFit(list: seq<nat>, rows: nat, cols: nat)
    requires rows > 0 && cols > 0 && forall i :: rows * cols <= i < |list| ==> list[i] !in {1, 2, 3}
    ensures forall c :: c in DrawnCells(list, |list|, cols) ==> 0 <= c.0 < rows && 0 <= c.1 < cols
    ensures var c := CellOf(CenterOf(list), cols); 0 <= c.0 < rows && 0 <= c.1 < cols
  {
    hide CellOf;
    CenterOfIn(list);
    Times(1, rows, cols);
    CellIn(CenterOf(list), rows, cols);
    forall i: nat | i < |list| && list[i] in {1, 3}
      ensures 0 <= CellOf(i, cols).0 < rows && 0 <= CellOf(i, cols).1 < cols
    {
      CellIn(i, rows, cols);
    }
  }

  lemma DrawnIsSensible(list: seq<nat>, rows: nat)
    requires WholeRows(list, rows)
    ensures Sensible(Drawn(list, rows))
  {
    hide CellOf, DrawnCells, CenterOf;
    AtLeastOne(|list|, rows);
    MarksFit(list, rows, |list| / rows);
  }

  lemma DrawnSize(list: seq<nat>, rows: nat)
    requires rows > 0
    ensures Drawn(list, rows).rows == rows && Output(Drawn(list, rows)) >= 2
  {
    hide CellOf, DrawnCells, CenterOf;
  }

  /** An area of whole rows can be drawn and turned. */
  lemma WholeRowsFit(list: seq<nat>, rows: nat)
    requires rows > 0
    ensures WholeRows(list, rows) ==>
              MarksInside(list, rows) && Sensible(Drawn(list, rows)) && Turnable(Drawn(list, rows))
  {
    if WholeRows(list, rows) {
      DrawnIsSensible(list, rows);
      hide Drawn, InBounds;
    }
  }

  /** Three numbers in two rows: the third covers a square outside, or is a centre about which no copy can be turned. */
  lemma StrayExamples()
    ensures Moderate([1, 1, 1], 2) && !MarksInside([1, 1, 1], 2)
    ensures Moderate([1, 1, 2], 2) && MarksInside([1, 1, 2], 2) && !Turnable(Drawn([1, 1, 2], 2))
  {
    var list, other := [1, 1, 1], [1, 1, 2];
    assert list[2] == 1 && other[2] == 2;
    assert CellOf(2, 1) == (2, 0) && CenterOf(other) == 2;
  }

  /** Draws an area from a list, unless that covers a square outside. */
  method CreateArea(list: seq<nat>, rows: nat) returns (inside: bool, area: MatrixArea)
    requires Moderate(list, rows)
    ensures area.Valid() && fresh(area) && fresh(area.data) && (inside <==> MarksInside(list, rows))
    ensures inside ==> area.Value() == Drawn(list, rows)
  {
    hide CellOf, DrawnCells, CenterOf;
    var cols := |list| / rows;
    assert CenterOf(list[..0]) == 0 by { NoCenter(list[..0]); }
    area := new MatrixArea(rows, cols);
    var x, y := 0, 0;
    FirstCell(list, cols);
    for i := 0 to |list|
      invariant area.Valid() && fresh(area) && fresh(area.data) && area.rows == rows && area.cols == cols
      invariant (y, x) == CellOf(i, cols)
      invariant area.Cells() == DrawnCells(list, i, cols)
      invariant forall k :: rows * cols <= k < i ==> list[k] !in {1, 3}
      invariant area.centerY == Wrapped(CellOf(CenterOf(list[..i]), cols).0)
      invariant area.centerX == Wrapped(CellOf(CenterOf(list[..i]), cols).1)
    {
      CellIn(i, rows, cols);
      CellNext(i, cols);
      OneMoreDrawn(list, i, cols);
      CenterStep(list, i);
      if list[i] == 1 || list[i] == 3 {
        if y >= rows || x >= cols {
          return false, area;
        }
        area.SetValue(y, x, true);
      }
      if list[i] == 2 || list[i] == 3 {
        area.SetCenter(y, x);
      }
      x := x + 1;
      if cols != x {
        continue;
      }
      x := 0;
      y := y + 1;
    }
    assert list[..|list|] == list;
    inside := true;
  }

  lemma NoCenter(list: seq<nat>)
    requires list == []
    ensures CenterOf(list) == 0
  {
  }

  lemma CenterStep(list: seq<nat>, i: nat)
    requires i < |list|
    ensures CenterOf(list[..i + 1]) == if list[i] in {2, 3} then i else CenterOf(list[..i])
  {
    assert list[..i + 1][..i] == list[..i];
  }

  lemma FirstCell(list: seq<nat>, cols: nat)
    ensures CellOf(0, cols) == (0, 0) && DrawnCells(list, 0, cols) == {}
  {
  }

  /** Which of the areas is used, seen from one position towards another. */
  function Towards(origin: Position, target: Position, hasExtArea: bool): Direction {
    var dx, dy := target.x - origin.x, target.y - origin.y;
    if hasExtArea && dx < 0 && dy < 0 then NORTH_WEST
    else if hasExtArea && dx > 0 && dy < 0 then NORTH_EAST
    else if hasExtArea && dx < 0 && dy > 0 then SOUTH_WEST
    else if hasExtArea && dx > 0 && dy > 0 then SOUTH_EAST
    else if dx < 0 then WEST
    else if dx > 0 then EAST
    else if dy < 0 then NORTH
    else SOUTH
  }

  /** Two rows of three squares, with the centre in the middle of the second row and covered. */
  lemma DrawnExample()
    ensures Drawn([0, 1, 0, 1, 3, 1], 2) == Matrix(2, 3, 1, 1, {(0, 1), (1, 0), (1, 1), (1, 2)})
  {
    var list := [0, 1, 0, 1, 3, 1];
    assert list[1] == 1 && list[3] == 1 && list[4] == 3 && list[5] == 1;
    forall c ensures c in DrawnCells(list, 6, 3) <==> c in {(0, 1), (1, 0), (1, 1), (1, 2)} {
      assert CellOf(1, 3) == (0, 1) && CellOf(3, 3) == (1, 0) && CellOf(4, 3) == (1, 1) && CellOf(5, 3) == (1, 2);
    }
    CenterIsLast(list);
    CenterOfIn(list);
  }

  function Sign(a: int): int {
    if a < 0 then -1 else if a > 0 then 1 else 0
  }

  /**
    The area used is the one for the direction that leads from origin to target: east or west before north or south
    when there are no areas for the diagonals, and south when there is no way to go.
   */
  lemma LeadsThere(origin: Position, target: Position, hasExtArea: bool)
    ensures var d, dx, dy := Towards(origin, target, hasExtArea), target.x - origin.x, target.y - origin.y;
            && d != NONE && DeltaX(d) == Sign(dx)
            && DeltaY(d) == if dx != 0 && !hasExtArea then 0 else if dx == dy == 0 then 1 else Sign(dy)
  {
  }

  class CombatArea {
    var areas: map<Direction, MatrixArea>
    var hasExtArea: bool

    constructor ()
      ensures areas == map[] && !hasExtArea
    {
      areas, hasExtArea := map[], false;
    }

    /** Draws the area to the north, and turns it to the south, the east and the west. */
    method SetupArea(list: seq<nat>, rows: nat) returns (ok: bool)
      requires Moderate(list, rows)
      modifies this`areas
      ensures ok <==> MarksInside(list, rows) && Turnable(Drawn(list, rows))
      ensures WholeRows(list, rows) ==> ok && Sensible(Drawn(list, rows))
      ensures !ok ==> areas == old(areas)
      ensures ok ==> areas.Keys == old(areas).Keys + {NORTH, SOUTH, EAST, WEST}
      ensures var m := Drawn(list, rows);
              ok ==>
              && Output(m) >= 2
              && (forall d :: d in {NORTH, SOUTH, EAST, WEST} ==> areas[d].Valid() && fresh(areas[d]))
              && areas[NORTH].Value() == m
              && areas[EAST].Value() == Turned(m, QUARTER, Output(m))
              && areas[SOUTH].Value() == Turned(m, HALF, Output(m))
              && areas[WEST].Value() == Turned(m, THREE_QUARTERS, Output(m))
      ensures forall d :: d in old(areas) && d !in {NORTH, SOUTH, EAST, WEST} ==>
                d in areas && areas[d] == old(areas)[d]
    {
      hide Turned, Drawn, Sensible, WholeRows, MarksInside, AllLand, Turnable, MatrixArea.Cells;
      WholeRowsFit(list, rows);
      DrawnSize(list, rows);
      TurnableExactly(Drawn(list, rows));
      var area, southArea, eastArea, westArea;
      ok, area := CreateArea(list, rows);
      if !ok {
        return;
      }
      var maxOutput := Max(area.cols, area.rows) * 2;
      var south, east, west;
      south, southArea := TurnedArea(area, HALF, maxOutput);
      east, eastArea := TurnedArea(area, QUARTER, maxOutput);
      west, westArea := TurnedArea(area, THREE_QUARTERS, maxOutput);
      ok := south && east && west;
      if !ok {
        return;
      }
      areas := areas[NORTH := area][SOUTH := southArea][EAST := eastArea][WEST := westArea];
    }

    /** Draws the area to the north-west, and reflects it to the other three corners. */
    method SetupExtArea(list: seq<nat>, rows: nat) returns (ok: bool)
      requires list != [] ==> Moderate(list, rows)
      modifies this
      ensures ok <==> list == [] || MarksInside(list, rows)
      ensures list == [] || !ok ==> areas == old(areas) && hasExtArea == old(hasExtArea)
      ensures list != [] && ok ==>
                && hasExtArea && areas.Keys == old(areas).Keys + {NORTH_WEST, NORTH_EAST, SOUTH_WEST, SOUTH_EAST}
                && (forall d :: d in {NORTH_WEST, NORTH_EAST, SOUTH_WEST, SOUTH_EAST} ==>
                    areas[d].Valid() && fresh(areas[d]))
                && var m := Drawn(list, rows);
                && areas[NORTH_WEST].Value() == m
                && areas[NORTH_EAST].Value() == Mirrored(m, Output(m))
                && areas[SOUTH_WEST].Value() == Flipped(m, Output(m))
                && areas[SOUTH_EAST].Value() == Mirrored(Flipped(m, Output(m)), Output(m))
      ensures list != [] && ok ==>
                forall d :: d in old(areas) && d !in {NORTH_WEST, NORTH_EAST, SOUTH_WEST, SOUTH_EAST} ==>
                    areas[d] == old(areas)[d]
    {
      hide Mirrored, Flipped, Drawn, MarksInside, CenterOf, MatrixArea.Cells;
      if list == [] {
        return true;
      }
      var area;
      ok, area := CreateArea(list, rows);
      if !ok {
        return;
      }
      var maxOutput := Max(area.cols, area.rows) * 2;
      var neArea := MirroredArea(area, maxOutput);
      var swArea := FlippedArea(area, maxOutput);
      FlippedSize(area.Value(), maxOutput);
      var seArea := MirroredArea(swArea, maxOutput);
      areas := areas[NORTH_WEST := area][NORTH_EAST := neArea][SOUTH_WEST := swArea][SOUTH_EAST := seArea];
      hasExtArea := true;
    }

    /** The squares an area covers, around a target, in rows from north to south and from west to east. */
    method GetList(origin: Position, destination: Position, isSightClear: Position -> bool, isTile: Position -> bool)
      returns (found: bool, list: seq<Position>)
      requires forall d :: d in areas ==> areas[d].Valid() && areas[d].rows < 0x1_0000 && areas[d].cols < 0x1_0000
      ensures found <==> Towards(origin, destination, hasExtArea) in areas
      ensures !found ==> list == []
      ensures found ==>
                var m := areas[Towards(origin, destination, hasExtArea)].Value();
                && (forall p :: p in list <==> Hit(m, destination, p) && isSightClear(p) && isTile(p))
                && (forall i, j :: 0 <= i < j < |list| ==>
                      list[i].y < list[j].y || (list[i].y == list[j].y && list[i].x < list[j].x))
    {
      hide Towards;
      list := [];
      var direction := Towards(origin, destination, hasExtArea);
      if direction !in areas {
        return false, list;
      }
      found := true;
      var area := areas[direction];
      if area.cols == 0 || area.rows == 0 {
        return;
      }
      hide Covers;
      ghost var m := area.Value();
      var maxOffsetY := Min(area.rows - area.centerY - 1, MAX_Y - destination.y);
      var offsetY := -Min(area.centerY, destination.y);
      while offsetY <= maxOffsetY
        invariant offsetY >= -Min(area.centerY, destination.y)
        invariant forall p :: p in list <==>
                  Hit(m, destination, p) && isSightClear(p) && isTile(p) && p.y - destination.y < offsetY
        invariant forall i, j :: 0 <= i < j < |list| ==> Earlier(list[i], list[j])
        decreases maxOffsetY - offsetY
      {
        var row := GetRow(area, destination, offsetY, isSightClear, isTile);
        list := list + row;
        offsetY := offsetY + 1;
      }
      RowsWithin(area, destination);
    }

    /** The squares an area covers in one row. */
    method GetRow(area: MatrixArea, destination: Position, offsetY: int, isSightClear: Position -> bool,
                  isTile: Position -> bool)
      returns (row: seq<Position>)
      requires area.Valid()
      requires -Min(area.centerY, destination.y) <= offsetY <= Min(area.rows - area.centerY - 1, MAX_Y - destination.y)
      ensures forall p :: p in row <==>
                p.y == destination.y + offsetY && Hit(area.Value(), destination, p) && isSightClear(p) && isTile(p)
      ensures forall i, j :: 0 <= i < j < |row| ==> row[i].x < row[j].x
    {
      row := [];
      ghost var m := area.Value();
      var maxOffsetX := Min(area.cols - area.centerX - 1, MAX_X - destination.x);
      var offsetX := -Min(area.centerX, destination.x);
      while offsetX <= maxOffsetX
        invariant offsetX >= -Min(area.centerX, destination.x)
        invariant forall p :: p in row <==>
                    && p.y == destination.y + offsetY && p.x < destination.x + offsetX
                    && Hit(m, destination, p) && isSightClear(p) && isTile(p)
        invariant forall i, j :: 0 <= i < j < |row| ==> row[i].x < row[j].x
        decreases maxOffsetX - offsetX
      {
        var position := Position(destination.x + offsetX, destination.y + offsetY, destination.z);
        assert Covers(m, offsetX, offsetY) <==> area.data[area.centerY + offsetY, area.centerX + offsetX];
        if area.data[area.centerY + offsetY, area.centerX + offsetX] && isSightClear(position) && isTile(position) {
          row := row + [position];
        }
        offsetX := offsetX + 1;
      }
    }

    lemma RowsWithin(area: MatrixArea, destination: Position)
      requires area.Valid()
      ensures forall p :: Hit(area.Value(), destination, p) ==>
                && -Min(area.centerY, destination.y) <= p.y - destination.y
                && p.y - destination.y <= Min(area.rows - area.centerY - 1, MAX_Y - destination.y)
    {
    }
  }

  const MAX_X := 60000
  const MAX_Y := 60000

  /** Whether an area around a target covers a square of the map. */
  predicate Hit(m: Matrix, destination: Position, p: Position) {
    p.z == destination.z && p.x <= MAX_X && p.y <= MAX_Y && Covers(m, p.x - destination.x, p.y - destination.y)
  }

  /** A square is hit if it lies as far from the target as some cell of the area from its centre. */
  lemma HitExactly(m: Matrix, destination: Position, p: Position)
    ensures Hit(m, destination, p) <==>
              && p.z == destination.z && p.x <= 60000 && p.y <= 60000
              && exists c :: c in m.cells && p.y - destination.y == c.0 - m.centerY
                             && p.x - destination.x == c.1 - m.centerX
  {
    if Hit(m, destination, p) {
      assert (m.centerY + (p.y - destination.y), m.centerX + (p.x - destination.x)) in m.cells;
    }
  }

  predicate Earlier(p: Position, q: Position) {
    p.y < q.y || (p.y == q.y && p.x < q.x)
  }
}
