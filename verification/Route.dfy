/** Routes: the squares a creature is about to walk over. */
module Route {
  import opened Arithmetic

  datatype Direction = NORTH | EAST | SOUTH | WEST | SOUTH_WEST | SOUTH_EAST | NORTH_WEST | NORTH_EAST | NONE

  type uint16 = x: int | 0 <= x < 0x1_0000

  datatype Position = Position(x: uint16, y: uint16, z: uint16)

  function Distance(p: Position, q: Position): nat {
    Max(Abs(p.x - q.x), Max(Abs(p.y - q.y), Abs(p.z - q.z)))
  }

  function DeltaX(d: Direction): int {
    if d in {EAST, SOUTH_EAST, NORTH_EAST} then 1 else if d in {WEST, SOUTH_WEST, NORTH_WEST} then -1 else 0
  }

  function DeltaY(d: Direction): int {
    if d in {SOUTH, SOUTH_WEST, SOUTH_EAST} then 1 else if d in {NORTH, NORTH_WEST, NORTH_EAST} then -1 else 0
  }

  /** Coordinates have 16 bits. */
  function Wrapped(a: int): uint16 {
    a % 0x1_0000
  }

  function Next(d: Direction, p: Position): Position {
    Position(Wrapped(p.x + DeltaX(d)), Wrapped(p.y + DeltaY(d)), p.z)
  }

  /** North is up, where rows are counted downwards, and east is right. */
  lemma Compass(p: Position)
    requires 0 < p.x < 0xFFFF && 0 < p.y < 0xFFFF
    ensures Next(NORTH, p) == p.(y := p.y - 1) && Next(SOUTH, p) == p.(y := p.y + 1)
    ensures Next(WEST, p) == p.(x := p.x - 1) && Next(EAST, p) == p.(x := p.x + 1)
    ensures Next(NORTH_WEST, p) == p.(x := p.x - 1, y := p.y - 1)
    ensures Next(NORTH_EAST, p) == p.(x := p.x + 1, y := p.y - 1)
    ensures Next(SOUTH_WEST, p) == p.(x := p.x - 1, y := p.y + 1)
    ensures Next(SOUTH_EAST, p) == p.(x := p.x + 1, y := p.y + 1)
    ensures Next(NONE, p) == p
  {
  }

  /** At the edges of the map coordinates wrap around. */
  lemma Edges(x: uint16, y: uint16, z: uint16)
    ensures Next(WEST, Position(0, y, z)) == Position(0xFFFF, y, z)
    ensures Next(EAST, Position(0xFFFF, y, z)) == Position(0, y, z)
    ensures Next(NORTH, Position(x, 0, z)) == Position(x, 0xFFFF, z)
    ensures Next(SOUTH, Position(x, 0xFFFF, z)) == Position(x, 0, z)
  {
  }

  /** Each square is next to the one before, and the first is next to `p`. */
  predicate Chain(p: Position, route: seq<Position>)
    decreases |route|
  {
    route == [] || (Distance(p, route[0]) == 1 && Chain(route[0], route[1..]))
  }

  function Squares(p: Position, ds: seq<Direction>): seq<Position>
    decreases |ds|
  {
    if ds == [] then [] else [Next(ds[0], p)] + Squares(Next(ds[0], p), ds[1..])
  }

  /** Every step leads somewhere, and not over the edge of the world. */
  predicate Steps(p: Position, ds: seq<Direction>)
    decreases |ds|
  {
    ds == [] ||
    (ds[0] != NONE && 0 <= p.x + DeltaX(ds[0]) < 0x1_0000 && 0 <= p.y + DeltaY(ds[0]) < 0x1_0000
     && Steps(Next(ds[0], p), ds[1..]))
  }

  lemma StepIsNeighbour(p: Position, d: Direction)
    ensures Distance(p, Next(d, p)) == 1 <==>
              d != NONE && 0 <= p.x + DeltaX(d) < 0x1_0000 && 0 <= p.y + DeltaY(d) < 0x1_0000
  {
  }

  /** Squares are neighbours if no coordinate differs by more than one, and some does. */
  lemma Neighbours(p: Position, q: Position)
    ensures Distance(p, q) == 1 <==> p != q && -1 <= p.x - q.x <= 1 && -1 <= p.y - q.y <= 1 && -1 <= p.z - q.z <= 1
    ensures Distance(p, q) == 0 <==> p == q
  {
  }

  /** One square for each direction, each where its direction leads from the one before. */
  lemma {:induction false} SquaresFollow(p: Position, ds: seq<Direction>)
    ensures |Squares(p, ds)| == |ds|
    ensures forall i :: 0 <= i < |ds| ==> Squares(p, ds)[i] == Next(ds[i], if i == 0 then p else Squares(p, ds)[i - 1])
    decreases |ds|
  {
    hide Next;
    if ds != [] {
      SquaresFollow(Next(ds[0], p), ds[1..]);
    }
  }

  /** Directions make a chain exactly if every one of them is a step. */
  lemma {:induction false} StepsMakeChain(p: Position, ds: seq<Direction>)
    ensures Chain(p, Squares(p, ds)) <==> Steps(p, ds)
    decreases |ds|
  {
    if ds != [] {
      StepIsNeighbour(p, ds[0]);
      StepsMakeChain(Next(ds[0], p), ds[1..]);
      assert Squares(p, ds)[1..] == Squares(Next(ds[0], p), ds[1..]);
    }
  }

  /** No direction, and a step west from the western edge, make no chain. */
  lemma NoChainExamples(y: uint16, z: uint16)
    ensures !Chain(Position(7, y, z), Squares(Position(7, y, z), [NONE]))
    ensures !Chain(Position(0, y, z), Squares(Position(0, y, z), [WEST]))
  {
    StepsMakeChain(Position(7, y, z), [NONE]);
    StepsMakeChain(Position(0, y, z), [WEST]);
  }

  // ---------------------------------------------------------------- routes when someone moves

  /** What is left of a route at its last square `q`. */
  function After(route: seq<Position>, q: Position): seq<Position> {
    if route == [] then [] else
    if q in route[1..] then After(route[1..], q)
    else if route[0] == q then route[1..] else []
  }

  /** What is left of a route that is to end before `q`. */
  function Before(route: seq<Position>, q: Position): seq<Position> {
    if route == [] || route[0] == q then [] else [route[0]] + Before(route[1..], q)
  }

  /** On the route, one can go on from where one is. */
  lemma {:induction false} AfterChain(p: Position, route: seq<Position>, q: Position)
    requires Chain(p, route)
    ensures Chain(q, After(route, q))
    decreases |route|
  {
    if route != [] {
      AfterChain(route[0], route[1..], q);
    }
  }

  lemma {:induction false} BeforeChain(p: Position, route: seq<Position>, q: Position)
    requires Chain(p, route)
    ensures Chain(p, Before(route, q)) && Before(route, q) <= route && q !in Before(route, q)
    decreases |route|
  {
    if route != [] && route[0] != q {
      BeforeChain(route[0], route[1..], q);
      assert ([route[0]] + Before(route[1..], q))[1..] == Before(route[1..], q);
    }
  }

  lemma {:induction false} AfterElsewhere(route: seq<Position>, q: Position)
    requires q !in route
    ensures After(route, q) == []
  {
  }

  lemma {:induction false} AfterIs(route: seq<Position>, q: Position, k: nat)
    requires 0 < k <= |route| && route[k - 1] == q && q !in route[k..]
    ensures After(route, q) == route[k..]
  {
    if k > 1 {
      assert route[1..][k - 2] == q && route[1..][k - 1..] == route[k..];
      AfterIs(route[1..], q, k - 1);
    }
  }

  lemma {:induction false} BeforeIs(route: seq<Position>, q: Position, k: nat)
    requires k < |route| && route[k] == q && q !in route[..k]
    ensures Before(route, q) == route[..k]
  {
    if k > 0 {
      assert route[0] in route[..k];
      assert route[1..][..k - 1] == route[..k][1..];
      BeforeIs(route[1..], q, k - 1);
    }
  }

  /** A step along a route that does not come back to that square takes off one square. */
  lemma AfterFirst(route: seq<Position>)
    requires route != [] && route[0] !in route[1..]
    ensures After(route, route[0]) == route[1..]
  {
  }
}
