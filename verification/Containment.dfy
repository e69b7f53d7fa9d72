/**
  Items in containers: a forest of items, each container knowing its contents in order and the total
  weight below it.

  This module looks at snapshots of the items; `ContainerGame` holds the objects and the code.
 */
module Containment {
  /** What is fixed by an item's type.  Weights are exact: hundredths of an ounce. */
  datatype Kind = Kind(id: nat, stackable: bool, pickupable: bool, moveable: bool, weight: int, worth: nat)

  class Item {
    const isContainer: bool
    const maxSize: nat
    var kind: Kind
    var count: nat
    var parent: Item?
    var totalWeight: int
    var itemlist: seq<Item>

    constructor (kind: Kind, count: nat, isContainer: bool, maxSize: nat)
      ensures this.kind == kind && this.count == count && this.isContainer == isContainer && this.maxSize == maxSize
      ensures parent == null && totalWeight == 0 && itemlist == []
    {
      this.isContainer, this.maxSize := isContainer, maxSize;
      this.kind, this.count := kind, count;
      parent, totalWeight, itemlist := null, 0, [];
    }
  }

  datatype Cell = Cell(kind: Kind, count: nat, parent: Item?, total: int, contents: seq<Item>)

  type World = map<Item, Cell>
  type Heights = map<Item, nat>

  // ---------------------------------------------------------------- sums over contents

  function At(f: map<Item, int>, x: Item): int {
    if x in f then f[x] else 0
  }

  function Total(f: map<Item, int>, xs: seq<Item>): int {
    if xs == [] then 0 else At(f, xs[0]) + Total(f, xs[1..])
  }

  predicate Distinct(xs: seq<Item>) {
    forall i, j :: 0 <= i < j < |xs| ==> xs[i] != xs[j]
  }

  lemma {:induction false} TotalSame(f: map<Item, int>, g: map<Item, int>, xs: seq<Item>)
    requires forall x :: x in xs ==> At(f, x) == At(g, x)
    ensures Total(f, xs) == Total(g, xs)
  {
    if xs != [] {
      TotalSame(f, g, xs[1..]);
    }
  }

  lemma {:induction false} TotalChange(f: map<Item, int>, g: map<Item, int>, xs: seq<Item>, x: Item)
    requires forall y :: y in xs && y != x ==> At(f, y) == At(g, y)
    requires Distinct(xs) && x in xs
    ensures Total(g, xs) == Total(f, xs) - At(f, x) + At(g, x)
  {
    if xs[0] == x {
      TotalSame(f, g, xs[1..]);
    } else {
      TotalChange(f, g, xs[1..], x);
    }
  }

  lemma {:induction false} TotalConcat(f: map<Item, int>, xs: seq<Item>, ys: seq<Item>)
    ensures Total(f, xs + ys) == Total(f, xs) + Total(f, ys)
  {
    if xs == [] {
      assert xs + ys == ys;
    } else {
      TotalConcat(f, xs[1..], ys);
      assert (xs + ys)[1..] == xs[1..] + ys;
    }
  }

  function Without(xs: seq<Item>, k: nat): seq<Item>
    requires k < |xs|
  {
    xs[..k] + xs[k + 1..]
  }

  lemma TotalWithout(f: map<Item, int>, xs: seq<Item>, k: nat)
    requires k < |xs|
    ensures Total(f, Without(xs, k)) == Total(f, xs) - At(f, xs[k])
  {
    assert xs == xs[..k] + xs[k..];
    TotalConcat(f, xs[..k], xs[k..]);
    TotalConcat(f, xs[..k], xs[k + 1..]);
    assert xs[k..][1..] == xs[k + 1..];
  }

  // ---------------------------------------------------------------- sound worlds

  /** Contents and parents agree. */
  ghost predicate Linked(s: World) {
    && (forall c :: c in s ==>
          && Distinct(s[c].contents)
          && (!c.isContainer ==> s[c].contents == [] && s[c].total == 0)
          && forall x :: x in s[c].contents ==> x in s && s[x].parent == c)
    && (forall x :: x in s && s[x].parent != null ==> s[x].parent in s && x in s[s[x].parent].contents)
  }

  /** A witness that the items form a forest: whatever contains an item stands higher than it. */
  ghost predicate Ranked(s: World, h: Heights) {
    && h.Keys == s.Keys
    && forall x :: x in s && s[x].parent != null ==> s[x].parent in s && h[s[x].parent] > h[x]
  }

  /** The weight of the item itself. */
  function OwnWeight(kind: Kind, count: nat): int {
    if kind.stackable then kind.weight * (if count < 1 then 1 else count) else kind.weight
  }

  /** A stack weighs as much as what it is split into, and even an empty one as much as one item. */
  lemma SplitWeighs(kind: Kind, m: nat, n: nat)
    requires kind.stackable
    ensures OwnWeight(kind, 1) == OwnWeight(kind, 0) == kind.weight
    ensures m > 0 && n > 0 ==> OwnWeight(kind, m + n) == OwnWeight(kind, m) + OwnWeight(kind, n)
    ensures OwnWeight(kind.(stackable := false), n) == kind.weight
  {
    assert kind.weight * (m + n) == kind.weight * m + kind.weight * n;
  }

  function Weights(s: World): map<Item, int> {
    map x | x in s :: OwnWeight(s[x].kind, s[x].count) + s[x].total
  }

  /** The weight cache of a container is what its contents weigh, give or take `d`. */
  predicate Weighs(s: World, c: Item, d: int)
    requires c in s
  {
    c.isContainer ==> s[c].total + d == Total(Weights(s), s[c].contents)
  }

  ghost predicate Coherent(s: World) {
    forall c {:trigger Weighs(s, c, 0)} :: c in s ==> Weighs(s, c, 0)
  }

  ghost predicate Valid(s: World, h: Heights) {
    Linked(s) && Ranked(s, h) && Coherent(s)
  }

  // ---------------------------------------------------------------- the way up

  ghost function Above(h: Heights, c: Item): set<Item>
    requires c in h
  {
    set i | i in h && h[i] > h[c]
  }

  /** The item and everything it is in. */
  ghost function Up(s: World, h: Heights, c: Item): set<Item>
    requires Ranked(s, h) && c in s
    decreases Above(h, c)
  {
    if s[c].parent == null then {c} else
    assert s[c].parent !in Above(h, s[c].parent) && s[c].parent in Above(h, c);
    {c} + Up(s, h, s[c].parent)
  }

  /** Climbing always ends, and never meets an item twice: nothing contains itself. */
  lemma {:induction false} NothingContainsItself(s: World, h: Heights, c: Item)
    requires Ranked(s, h) && c in s
    ensures forall a :: a in Up(s, h, c) ==> a in s && h[a] >= h[c]
    ensures forall a :: a in Up(s, h, c) && a != c ==> h[a] > h[c]
    ensures s[c].parent != null ==> c !in Up(s, h, s[c].parent)
    decreases Above(h, c)
  {
    if s[c].parent != null {
      assert s[c].parent !in Above(h, s[c].parent) && s[c].parent in Above(h, c);
      NothingContainsItself(s, h, s[c].parent);
    }
  }

  /** With an item, everything it is in is on the way up too. */
  lemma {:induction false} UpClosed(s: World, h: Heights, c: Item)
    requires Ranked(s, h) && c in s
    ensures forall a :: a in Up(s, h, c) ==> a in s && (s[a].parent != null ==> s[a].parent in Up(s, h, c))
    decreases Above(h, c)
  {
    NothingContainsItself(s, h, c);
    if s[c].parent != null {
      assert s[c].parent !in Above(h, s[c].parent) && s[c].parent in Above(h, c);
      UpClosed(s, h, s[c].parent);
    }
  }

  // ---------------------------------------------------------------- weights on the way up

  function AddWeight(s: World, c: Item, d: int): World
    requires c in s
  {
    s[c := s[c].(total := s[c].total + d)]
  }

  ghost function Propagate(s: World, h: Heights, c: Item, d: int): (r: World)
    requires Ranked(s, h) && c in s
    ensures r.Keys == s.Keys
    ensures forall x :: x in s ==> r[x] == s[x].(total := r[x].total)
    decreases Above(h, c)
  {
    var s' := AddWeight(s, c, d);
    if s[c].parent == null then s' else
    assert s[c].parent !in Above(h, s[c].parent) && s[c].parent in Above(h, c);
    Propagate(s', h, s[c].parent, d)
  }

  /** One cache is off by `d`, all others are right. */
  ghost predicate OffBy(s: World, c: Item, d: int)
    requires c in s
  {
    Weighs(s, c, d) && forall k {:trigger Weighs(s, k, 0)} :: k in s && k != c ==> Weighs(s, k, 0)
  }

  lemma AddWeightLinked(s: World, c: Item, d: int)
    requires Linked(s) && c in s && c.isContainer
    ensures Linked(AddWeight(s, c, d))
  {
  }

  /** Correcting one cache moves the error to the container above. */
  lemma AddWeightMovesError(s: World, h: Heights, c: Item, d: int)
    requires Linked(s) && Ranked(s, h) && c in s && c.isContainer && OffBy(s, c, d)
    ensures var s' := AddWeight(s, c, d);
            && Linked(s') && Ranked(s', h)
            && if s[c].parent == null then Coherent(s') else OffBy(s', s[c].parent, d)
  {
    hide Linked, Ranked, Weighs;
    var s' := AddWeight(s, c, d);
    AddWeightLinked(s, c, d);
    AddWeightRanked(s, h, c, d);
    assert forall k :: k in s && k != c ==> Weighs(s, k, 0);
    forall k | k in s ensures Weighs(s', k, if k == s[c].parent then d else 0) {
      AddWeightAt(s, c, d, k);
    }
  }

  lemma AddWeightRanked(s: World, h: Heights, c: Item, d: int)
    requires Ranked(s, h) && c in s
    ensures Ranked(AddWeight(s, c, d), h)
    ensures s[c].parent != c && (s[c].parent != null ==> s[c].parent in s)
  {
  }

  lemma AddWeightAt(s: World, c: Item, d: int, k: Item)
    requires Linked(s) && c in s && k in s && s[c].parent != c
    requires Weighs(s, k, if k == c then d else 0)
    ensures Weighs(AddWeight(s, c, d), k, if k == s[c].parent then d else 0)
  {
    var f, g, xs := Weights(s), Weights(AddWeight(s, c, d)), s[k].contents;
    assert forall x :: x in xs ==> x in s && s[x].parent == k;
    hide Linked;
    if c in xs {
      TotalChange(f, g, xs, c);
    } else {
      TotalSame(f, g, xs);
    }
  }

  lemma {:induction false} PropagateCoherent(s: World, h: Heights, c: Item, d: int)
    requires Linked(s) && Ranked(s, h) && c in s && c.isContainer && OffBy(s, c, d)
    ensures Valid(Propagate(s, h, c, d), h)
    decreases Above(h, c)
  {
    AddWeightMovesError(s, h, c, d);
    if s[c].parent != null {
      assert s[c].parent !in Above(h, s[c].parent) && s[c].parent in Above(h, c);
      PropagateCoherent(AddWeight(s, c, d), h, s[c].parent, d);
    }
  }

  // ---------------------------------------------------------------- adding

  function Weight(s: World, x: Item): int
    requires x in s
  {
    OwnWeight(s[x].kind, s[x].count) + s[x].total
  }

  /** `x` becomes the first of the contents of `c`. */
  function Link(s: World, c: Item, x: Item): World
    requires c in s && x in s && c != x
  {
    s[x := s[x].(parent := c)][c := s[c].(contents := [x] + s[c].contents)]
  }

  /** Everything around `c` is lifted above `x`. */
  ghost function Raise(s: World, h: Heights, c: Item, x: Item): Heights
    requires Ranked(s, h) && c in s && x in s
  {
    map i | i in h :: if i in Up(s, h, c) then h[i] + h[x] + 1 else h[i]
  }

  /** What may go where: a loose item, into a container it does not itself contain. */
  ghost predicate MayAdd(s: World, h: Heights, c: Item, x: Item) {
    Valid(s, h) && c in s && x in s && c.isContainer && s[x].parent == null && x !in Up(s, h, c)
  }

  lemma LinkLinked(s: World, h: Heights, c: Item, x: Item)
    requires MayAdd(s, h, c, x)
    ensures c != x && Linked(Link(s, c, x))
  {
    hide Coherent, Ranked;
    var s' := Link(s, c, x);
    assert x !in s[c].contents;
    assert s'[c].contents == [x] + s[c].contents;
    forall k | k in s'
      ensures Distinct(s'[k].contents) && forall y :: y in s'[k].contents ==> y in s' && s'[y].parent == k
    {
      if k != c {
        assert s'[k].contents == s[k].contents && x !in s[k].contents;
      }
    }
    forall y | y in s' && s'[y].parent != null ensures s'[y].parent in s' && y in s'[s'[y].parent].contents {
      if y != x {
        assert y in s[s[y].parent].contents;
      }
    }
  }

  lemma LinkRanked(s: World, h: Heights, c: Item, x: Item)
    requires MayAdd(s, h, c, x)
    ensures Ranked(Link(s, c, x), Raise(s, h, c, x))
  {
    hide Coherent, Linked, Up;
    UpClosed(s, h, c);
    assert c in Up(s, h, c) by { UpStarts(s, h, c); }
    NothingContainsItself(s, h, c);
  }

  lemma UpStarts(s: World, h: Heights, c: Item)
    requires Ranked(s, h) && c in s
    ensures c in Up(s, h, c)
  {
  }

  lemma LinkOffBy(s: World, h: Heights, c: Item, x: Item)
    requires MayAdd(s, h, c, x)
    ensures OffBy(Link(s, c, x), c, Weight(s, x))
  {
    hide Linked, Ranked, Up;
    UpStarts(s, h, c);
    var s' := Link(s, c, x);
    forall k | k in s ensures Weighs(s', k, if k == c then Weight(s, x) else 0) {
      assert Weighs(s, k, 0);
      LinkAt(s, c, x, k);
    }
  }

  lemma LinkAt(s: World, c: Item, x: Item, k: Item)
    requires c in s && x in s && c != x && k in s && Weighs(s, k, 0)
    ensures Weighs(Link(s, c, x), k, if k == c then Weight(s, x) else 0)
  {
    hide OwnWeight;
    var s' := Link(s, c, x);
    var f, g := Weights(s), Weights(s');
    assert forall y :: y in s ==> f[y] == g[y];
    TotalSame(f, g, s[k].contents);
    if k == c {
      assert s'[c].contents == [x] + s[c].contents;
      assert s'[c].contents[1..] == s[c].contents;
    }
  }

  /** Adding an item to a container, and its weight to everything around it. */
  ghost function Add(s: World, h: Heights, c: Item, x: Item): World
    requires MayAdd(s, h, c, x)
  {
    LinkLinked(s, h, c, x);
    LinkRanked(s, h, c, x);
    Propagate(Link(s, c, x), Raise(s, h, c, x), c, Weight(s, x))
  }

  lemma AddKeeps(s: World, h: Heights, c: Item, x: Item)
    requires MayAdd(s, h, c, x)
    ensures Valid(Add(s, h, c, x), Raise(s, h, c, x))
  {
    hide Linked, Ranked, Coherent, OffBy, Propagate, Up, Raise, Weight;
    LinkLinked(s, h, c, x);
    LinkRanked(s, h, c, x);
    LinkOffBy(s, h, c, x);
    PropagateCoherent(Link(s, c, x), Raise(s, h, c, x), c, Weight(s, x));
  }

  // ---------------------------------------------------------------- removing

  function Unlink(s: World, c: Item, k: nat): World
    requires c in s && k < |s[c].contents| && s[c].contents[k] in s
  {
    var x := s[c].contents[k];
    s[x := s[x].(parent := null)][c := s[c].(contents := Without(s[c].contents, k))]
  }

  function IndexOf(xs: seq<Item>, x: Item): (k: nat)
    requires x in xs
    ensures k < |xs| && xs[k] == x
  {
    if xs[0] == x then 0 else IndexOf(xs[1..], x) + 1
  }

  ghost predicate MayRemove(s: World, h: Heights, c: Item, k: nat) {
    Valid(s, h) && c in s && c.isContainer && k < |s[c].contents| && s[c].contents[k] in s
  }

  lemma HeldMayBeRemoved(s: World, h: Heights, c: Item, x: Item)
    requires Valid(s, h) && c in s && x in s[c].contents
    ensures MayRemove(s, h, c, IndexOf(s[c].contents, x)) && x in s && s[x].parent == c && c.isContainer && x != c
  {
  }

  lemma ContentsBelow(s: World, h: Heights, c: Item, x: Item)
    requires Linked(s) && Ranked(s, h) && c in s && x in s[c].contents
    ensures x in s && s[x].parent == c && x != c
  {
  }

  lemma WithoutMembers(xs: seq<Item>, k: nat)
    requires Distinct(xs) && k < |xs|
    ensures Distinct(Without(xs, k))
    ensures forall y :: y in Without(xs, k) <==> y in xs && y != xs[k]
  {
    var ys := Without(xs, k);
    forall y | y in xs && y != xs[k] ensures y in ys {
      var i :| 0 <= i < |xs| && xs[i] == y;
      assert ys[if i < k then i else i - 1] == y;
    }
  }

  lemma TakenOut(s: World, h: Heights, c: Item, x: Item, ys: seq<Item>)
    requires Linked(s) && Ranked(s, h) && c in s && x in s[c].contents && x in s && x != c
    requires Distinct(ys) && forall y :: y in ys <==> y in s[c].contents && y != x
    ensures var s' := s[x := s[x].(parent := null)][c := s[c].(contents := ys)]; Linked(s') && Ranked(s', h)
  {
    TakenOutLinked(s, c, x, ys);
    hide Linked, Distinct;
    FewerParents(s, s[x := s[x].(parent := null)][c := s[c].(contents := ys)], h);
  }

  lemma TakenOutLinked(s: World, c: Item, x: Item, ys: seq<Item>)
    requires Linked(s) && c in s && x in s[c].contents && x in s && x != c
    requires Distinct(ys) && forall y :: y in ys <==> y in s[c].contents && y != x
    ensures Linked(s[x := s[x].(parent := null)][c := s[c].(contents := ys)])
  {
    hide Distinct;
    var s' := s[x := s[x].(parent := null)][c := s[c].(contents := ys)];
    assert forall a :: a in s && a != c ==> s'[a].contents == s[a].contents && x !in s[a].contents;
    forall y | y in s' && s'[y].parent != null ensures s'[y].parent in s' && y in s'[s'[y].parent].contents {
      assert y != x && s'[y].parent == s[y].parent && y in s[s[y].parent].contents;
    }
  }

  lemma UnlinkLinked(s: World, h: Heights, c: Item, k: nat)
    requires MayRemove(s, h, c, k)
    ensures Linked(Unlink(s, c, k)) && Ranked(Unlink(s, c, k), h)
  {
    var x := s[c].contents[k];
    ContentsBelow(s, h, c, x);
    WithoutMembers(s[c].contents, k);
    hide *;
    TakenOut(s, h, c, x, Without(s[c].contents, k));
  }

  lemma UnlinkOffBy(s: World, h: Heights, c: Item, k: nat)
    requires MayRemove(s, h, c, k)
    ensures OffBy(Unlink(s, c, k), c, -Weight(s, s[c].contents[k]))
  {
    hide Linked, Ranked, Without;
    var s', x := Unlink(s, c, k), s[c].contents[k];
    ContentsBelow(s, h, c, x);
    forall a | a in s ensures Weighs(s', a, if a == c then -Weight(s, x) else 0) {
      assert Weighs(s, a, 0);
      UnlinkAt(s, c, k, a);
    }
  }

  lemma UnlinkAt(s: World, c: Item, k: nat, a: Item)
    requires c in s && k < |s[c].contents| && s[c].contents[k] in s && s[c].contents[k] != c
    requires a in s && Weighs(s, a, 0)
    ensures Weighs(Unlink(s, c, k), a, if a == c then -Weight(s, s[c].contents[k]) else 0)
  {
    var s', x := Unlink(s, c, k), s[c].contents[k];
    hide OwnWeight, Without;
    var f, g := Weights(s), Weights(s');
    assert forall y :: y in s ==> f[y] == g[y];
    if a == c {
      TotalWithout(f, s[c].contents, k);
    }
    TotalSame(f, g, s'[a].contents);
  }

  /** Taking an item out of a container, and its weight off everything around it. */
  ghost function Remove(s: World, h: Heights, c: Item, x: Item): World
    requires Valid(s, h) && c in s && x in s[c].contents
  {
    HeldMayBeRemoved(s, h, c, x);
    var k := IndexOf(s[c].contents, x);
    UnlinkLinked(s, h, c, k);
    Propagate(Unlink(s, c, k), h, c, -Weight(s, x))
  }

  lemma RemoveKeeps(s: World, h: Heights, c: Item, x: Item)
    requires Valid(s, h) && c in s && x in s[c].contents
    ensures Valid(Remove(s, h, c, x), h)
  {
    hide Linked, Ranked, Coherent, OffBy, Propagate, Weight;
    HeldMayBeRemoved(s, h, c, x);
    var k := IndexOf(s[c].contents, x);
    UnlinkLinked(s, h, c, k);
    UnlinkOffBy(s, h, c, k);
    PropagateCoherent(Unlink(s, c, k), h, c, -Weight(s, s[c].contents[k]));
  }

  // ---------------------------------------------------------------- changing an item in place

  function Change(s: World, x: Item, kind: Kind, count: nat): World
    requires x in s
  {
    s[x := s[x].(kind := kind, count := count)]
  }

  lemma ChangeOffBy(s: World, h: Heights, x: Item, kind: Kind, count: nat)
    requires Valid(s, h) && x in s && s[x].parent != null
    ensures var s' := Change(s, x, kind, count);
            && Linked(s') && Ranked(s', h)
            && OffBy(s', s[x].parent, OwnWeight(s'[x].kind, s'[x].count) - OwnWeight(s[x].kind, s[x].count))
  {
    hide Linked, Ranked, OwnWeight;
    ChangeLinked(s, h, x, kind, count);
    var s', c := Change(s, x, kind, count), s[x].parent;
    var d := OwnWeight(s'[x].kind, s'[x].count) - OwnWeight(s[x].kind, s[x].count);
    forall a | a in s ensures Weighs(s', a, if a == c then d else 0) {
      assert Weighs(s, a, 0);
      ChangeAt(s, x, kind, count, a);
    }
  }

  lemma ChangeLinked(s: World, h: Heights, x: Item, kind: Kind, count: nat)
    requires Linked(s) && Ranked(s, h) && x in s
    ensures Linked(Change(s, x, kind, count)) && Ranked(Change(s, x, kind, count), h)
    ensures s[x].parent != null ==> s[x].parent in s
  {
    SameShape(s, Change(s, x, kind, count), h);
  }

  /** Soundness of links and heights depends on parents and contents only. */
  lemma SameShape(s: World, s': World, h: Heights)
    requires Linked(s) && Ranked(s, h) && s'.Keys == s.Keys
    requires forall x :: x in s ==> s'[x].parent == s[x].parent && s'[x].contents == s[x].contents
    requires forall x :: x in s && !x.isContainer ==> s'[x].total == 0
    ensures Linked(s') && Ranked(s', h)
  {
    forall c | c in s'
      ensures Distinct(s'[c].contents) && forall x :: x in s'[c].contents ==> x in s' && s'[x].parent == c
    {
      assert s'[c].contents == s[c].contents;
    }
    hide Distinct;
  }

  lemma ChangeAt(s: World, x: Item, kind: Kind, count: nat, a: Item)
    requires Linked(s) && x in s && a in s && s[x].parent != null && Weighs(s, a, 0)
    ensures var s' := Change(s, x, kind, count);
            var d := OwnWeight(s'[x].kind, s'[x].count) - OwnWeight(s[x].kind, s[x].count);
            Weighs(s', a, if a == s[x].parent then d else 0)
  {
    var s', c, xs := Change(s, x, kind, count), s[x].parent, s[a].contents;
    assert a == c ==> x in xs && Distinct(xs);
    assert a != c ==> x !in xs;
    hide Linked, OwnWeight;
    var f, g := Weights(s), Weights(s');
    assert forall y :: y in s && y != x ==> f[y] == g[y];
    if a == c {
      TotalChange(f, g, xs, x);
    } else {
      TotalSame(f, g, xs);
    }
  }

  /** A held item gets another type or count; everything around it gets the difference in weight. */
  ghost function Update(s: World, h: Heights, x: Item, kind: Kind, count: nat): World
    requires Valid(s, h) && x in s
  {
    ChangeLinked(s, h, x, kind, count);
    var s' := Change(s, x, kind, count);
    if s[x].parent == null then s' else
    Propagate(s', h, s[x].parent, OwnWeight(s'[x].kind, s'[x].count) - OwnWeight(s[x].kind, s[x].count))
  }

  lemma HolderIsContainer(s: World, x: Item)
    requires Linked(s) && x in s && s[x].parent != null
    ensures s[x].parent in s && s[x].parent.isContainer
  {
  }

  lemma UpdateKeeps(s: World, h: Heights, x: Item, kind: Kind, count: nat)
    requires Valid(s, h) && x in s && s[x].parent != null
    ensures Valid(Update(s, h, x, kind, count), h)
  {
    hide Linked, Ranked, Coherent, OffBy, Propagate, OwnWeight, Weighs, Above;
    HolderIsContainer(s, x);
    ChangeOffBy(s, h, x, kind, count);
    var s' := Change(s, x, kind, count);
    PropagateCoherent(s', h, s[x].parent, OwnWeight(s'[x].kind, s'[x].count) - OwnWeight(s[x].kind, s[x].count));
  }

  // ---------------------------------------------------------------- replacing

  /** `x` takes the place of the item at slot `k` of `c`, which is then nowhere. */
  function Swap(s: World, c: Item, k: nat, x: Item): World
    requires c in s && x in s && c != x && k < |s[c].contents| && s[c].contents[k] in s
  {
    var y := s[c].contents[k];
    s[y := s[y].(parent := null)][x := s[x].(parent := c)][c := s[c].(contents := s[c].contents[k := x])]
  }

  ghost predicate MayReplace(s: World, h: Heights, c: Item, k: nat, x: Item) {
    MayAdd(s, h, c, x) && k < |s[c].contents|
  }

  lemma SwapMembers(xs: seq<Item>, k: nat, x: Item)
    requires Distinct(xs) && k < |xs| && x !in xs
    ensures Distinct(xs[k := x])
    ensures forall y :: y in xs[k := x] <==> y == x || (y in xs && y != xs[k])
  {
    var ys := xs[k := x];
    assert ys[k] == x;
    forall y | y in xs && y != xs[k] ensures y in ys {
      var i :| 0 <= i < |xs| && xs[i] == y;
      assert ys[i] == y;
    }
  }

  lemma SwappedIn(s: World, c: Item, y: Item, x: Item, ys: seq<Item>)
    requires Linked(s) && c in s && c.isContainer && x in s && s[x].parent == null
    requires y in s[c].contents && y in s && y != c && x != c
    requires Distinct(ys) && forall z :: z in ys <==> z == x || (z in s[c].contents && z != y)
    ensures Linked(s[y := s[y].(parent := null)][x := s[x].(parent := c)][c := s[c].(contents := ys)])
  {
    hide Distinct;
    assert y != x;
    var s' := s[y := s[y].(parent := null)][x := s[x].(parent := c)][c := s[c].(contents := ys)];
    assert forall a :: a in s && a != c ==>
        s'[a].contents == s[a].contents && x !in s[a].contents && y !in s[a].contents;
    forall z | z in s' && s'[z].parent != null ensures s'[z].parent in s' && z in s'[s'[z].parent].contents {
      if z != x {
        assert z != y && s'[z].parent == s[z].parent && z in s[s[z].parent].contents;
      }
    }
  }

  lemma SwapLinked(s: World, h: Heights, c: Item, k: nat, x: Item)
    requires MayReplace(s, h, c, k, x)
    ensures c != x && s[c].contents[k] in s && Linked(Swap(s, c, k, x))
  {
    hide Coherent, Up;
    UpStarts(s, h, c);
    var xs := s[c].contents;
    assert x !in xs;
    ContentsBelow(s, h, c, xs[k]);
    SwapMembers(xs, k, x);
    var ys := xs[k := x];
    hide Linked, Ranked, Distinct;
    SwappedIn(s, c, xs[k], x, ys);
  }

  lemma SwapRanked(s: World, h: Heights, c: Item, k: nat, x: Item)
    requires MayReplace(s, h, c, k, x)
    ensures c != x && s[c].contents[k] in s && Ranked(Swap(s, c, k, x), Raise(s, h, c, x))
  {
    hide Coherent, Linked, Ranked, Up, Raise;
    SlotHeld(s, h, c, k, x);
    LinkLinked(s, h, c, x);
    LinkRanked(s, h, c, x);
    FewerParents(Link(s, c, x), Swap(s, c, k, x), Raise(s, h, c, x));
  }

  lemma SlotHeld(s: World, h: Heights, c: Item, k: nat, x: Item)
    requires MayReplace(s, h, c, k, x)
    ensures c != x && s[c].contents[k] in s && s[c].contents[k] != c
  {
    hide Coherent, Up;
    UpStarts(s, h, c);
    ContentsBelow(s, h, c, s[c].contents[k]);
  }

  lemma FewerParents(s: World, s': World, h: Heights)
    requires Ranked(s, h) && s'.Keys == s.Keys
    requires forall a :: a in s ==> s'[a].parent == null || s'[a].parent == s[a].parent
    ensures Ranked(s', h)
  {
  }

  lemma {:induction false} TotalSwap(f: map<Item, int>, xs: seq<Item>, k: nat, x: Item)
    requires k < |xs|
    ensures Total(f, xs[k := x]) == Total(f, xs) - At(f, xs[k]) + At(f, x)
  {
    if k == 0 {
      assert xs[0 := x][1..] == xs[1..];
    } else {
      assert xs[k := x][1..] == xs[1..][k - 1 := x];
      TotalSwap(f, xs[1..], k - 1, x);
    }
  }

  lemma SwapAt(s: World, c: Item, k: nat, x: Item, a: Item)
    requires c in s && x in s && c != x && k < |s[c].contents| && s[c].contents[k] in s && s[c].contents[k] != c
    requires a in s && Weighs(s, a, 0)
    ensures Weighs(Swap(s, c, k, x), a, if a == c then Weight(s, x) - Weight(s, s[c].contents[k]) else 0)
  {
    var s' := Swap(s, c, k, x);
    SwapWeights(s, c, k, x);
    hide OwnWeight, Weights;
    TotalSame(Weights(s), Weights(s'), s'[a].contents);
    if a == c {
      TotalSwap(Weights(s), s[c].contents, k, x);
      WeightsAre(s, x);
      WeightsAre(s, s[c].contents[k]);
    }
  }

  lemma WeightsAre(s: World, x: Item)
    requires x in s
    ensures At(Weights(s), x) == Weight(s, x)
  {
  }

  lemma SwapWeights(s: World, c: Item, k: nat, x: Item)
    requires c in s && x in s && c != x && k < |s[c].contents| && s[c].contents[k] in s && s[c].contents[k] != c
    ensures Weights(Swap(s, c, k, x)) == Weights(s)
  {
    hide OwnWeight;
  }

  lemma SwapOffBy(s: World, h: Heights, c: Item, k: nat, x: Item)
    requires MayReplace(s, h, c, k, x)
    ensures c != x && s[c].contents[k] in s
    ensures OffBy(Swap(s, c, k, x), c, Weight(s, x) - Weight(s, s[c].contents[k]))
  {
    hide Linked, Ranked, Up, Weight, Swap;
    SlotHeld(s, h, c, k, x);
    var s', d := Swap(s, c, k, x), Weight(s, x) - Weight(s, s[c].contents[k]);
    assert s'.Keys == s.Keys by { SwapKeys(s, c, k, x); }
    forall a | a in s ensures Weighs(s', a, if a == c then d else 0) {
      assert Weighs(s, a, 0);
      SwapAt(s, c, k, x, a);
    }
  }

  lemma SwapKeys(s: World, c: Item, k: nat, x: Item)
    requires c in s && x in s && c != x && k < |s[c].contents| && s[c].contents[k] in s
    ensures Swap(s, c, k, x).Keys == s.Keys
  {
  }

  ghost function Replace(s: World, h: Heights, c: Item, k: nat, x: Item): World
    requires MayReplace(s, h, c, k, x)
  {
    SwapLinked(s, h, c, k, x);
    SwapRanked(s, h, c, k, x);
    Propagate(Swap(s, c, k, x), Raise(s, h, c, x), c, Weight(s, x) - Weight(s, s[c].contents[k]))
  }

  lemma ReplaceKeeps(s: World, h: Heights, c: Item, k: nat, x: Item)
    requires MayReplace(s, h, c, k, x)
    ensures Valid(Replace(s, h, c, k, x), Raise(s, h, c, x))
  {
    hide Linked, Ranked, Coherent, OffBy, Propagate, Up, Raise, Weight, Swap;
    SwapLinked(s, h, c, k, x);
    SwapRanked(s, h, c, k, x);
    SwapOffBy(s, h, c, k, x);
    SwapKeys(s, c, k, x);
    PropagateCoherent(Swap(s, c, k, x), Raise(s, h, c, x), c, Weight(s, x) - Weight(s, s[c].contents[k]));
  }

  lemma AddShape(s: World, h: Heights, c: Item, x: Item)
    requires MayAdd(s, h, c, x)
    ensures var s' := Add(s, h, c, x);
            && s'.Keys == s.Keys && s'[c].contents == [x] + s[c].contents
            && (forall a :: a in s ==> s'[a].kind == s[a].kind && s'[a].count == s[a].count)
            && (forall a :: a in s && a != c ==> s'[a].contents == s[a].contents)
            && (forall a :: a in s && a != x ==> s'[a].parent == s[a].parent) && s'[x].parent == c
  {
    hide Linked, Ranked, Coherent, Propagate, Raise, Up;
    LinkLinked(s, h, c, x);
    LinkRanked(s, h, c, x);
  }

  lemma RemoveShape(s: World, h: Heights, c: Item, x: Item)
    requires Valid(s, h) && c in s && x in s[c].contents
    ensures x in s
    ensures var s' := Remove(s, h, c, x);
            && s'.Keys == s.Keys && s'[c].contents == Without(s[c].contents, IndexOf(s[c].contents, x))
            && (forall a :: a in s ==> s'[a].kind == s[a].kind && s'[a].count == s[a].count)
            && (forall a :: a in s && a != c ==> s'[a].contents == s[a].contents)
            && (forall a :: a in s && a != x ==> s'[a].parent == s[a].parent)
  {
    hide Linked, Ranked, Coherent, Propagate, Without;
    HeldMayBeRemoved(s, h, c, x);
    UnlinkLinked(s, h, c, IndexOf(s[c].contents, x));
  }

  /** One item is in the place of another, and apart from weights all else is as it was. */
  lemma ReplaceShape(s: World, h: Heights, c: Item, k: nat, x: Item)
    requires MayReplace(s, h, c, k, x)
    ensures var y, s' := s[c].contents[k], Replace(s, h, c, k, x);
            && s'.Keys == s.Keys && y in s && y != x && s'[c].contents == s[c].contents[k := x]
            && s'[x].parent == c && s'[y].parent == null
            && (forall a :: a in s ==> s'[a].kind == s[a].kind && s'[a].count == s[a].count)
            && (forall a :: a in s && a != c ==> s'[a].contents == s[a].contents)
            && (forall a :: a in s && a != x && a != y ==> s'[a].parent == s[a].parent)
  {
    hide Linked, Ranked, Coherent, Propagate, Raise, Up, Distinct;
    SlotHeld(s, h, c, k, x);
    SwapLinked(s, h, c, k, x);
    SwapRanked(s, h, c, k, x);
    LooseNotThere(s, h, c, k, x);
  }

  lemma LooseNotThere(s: World, h: Heights, c: Item, k: nat, x: Item)
    requires MayReplace(s, h, c, k, x)
    ensures s[c].contents[k] in s && s[c].contents[k] != x
  {
  }

  /** A changed item keeps its place, and everything its contents. */
  lemma UpdateShape(s: World, h: Heights, x: Item, kind: Kind, count: nat)
    requires Valid(s, h) && x in s
    ensures var s' := Update(s, h, x, kind, count);
            && s'.Keys == s.Keys && s'[x].kind == kind && s'[x].count == count
            && (forall a :: a in s ==> s'[a].contents == s[a].contents && s'[a].parent == s[a].parent)
            && (forall a :: a in s && a != x ==> s'[a].kind == s[a].kind && s'[a].count == s[a].count)
  {
    hide Linked, Ranked, Coherent, Propagate, OwnWeight;
    ChangeLinked(s, h, x, kind, count);
  }

  // ---------------------------------------------------------------- what the cached weight means

  /** The weight of an item with everything in it, without looking at any cache. */
  ghost function TrueWeight(s: World, h: Heights, x: Item): int
    requires Linked(s) && Ranked(s, h) && x in s
    decreases h[x], |s[x].contents| + 1
  {
    OwnWeight(s[x].kind, s[x].count) + TrueWeights(s, h, x, s[x].contents)
  }

  ghost function TrueWeights(s: World, h: Heights, x: Item, xs: seq<Item>): int
    requires Linked(s) && Ranked(s, h) && x in s && (forall y :: y in xs ==> y in s && s[y].parent == x)
    decreases h[x], |xs|
  {
    if xs == [] then 0 else TrueWeight(s, h, xs[0]) + TrueWeights(s, h, x, xs[1..])
  }

  /** In a sound world every cache tells the truth, at any depth. */
  lemma {:induction false} CachesTellTruth(s: World, h: Heights, x: Item)
    requires Valid(s, h) && x in s
    ensures Weight(s, x) == TrueWeight(s, h, x)
    decreases h[x], |s[x].contents| + 1
  {
    assert Weighs(s, x, 0);
    ContentsTellTruth(s, h, x, s[x].contents);
  }

  lemma {:induction false} ContentsTellTruth(s: World, h: Heights, x: Item, xs: seq<Item>)
    requires Valid(s, h) && x in s && (forall y :: y in xs ==> y in s && s[y].parent == x)
    ensures Total(Weights(s), xs) == TrueWeights(s, h, x, xs)
    decreases h[x], |xs|
  {
    if xs != [] {
      CachesTellTruth(s, h, xs[0]);
      ContentsTellTruth(s, h, x, xs[1..]);
    }
  }

  // ---------------------------------------------------------------- new items

  function Fresh(kind: Kind, count: nat): Cell {
    Cell(kind, count, null, 0, [])
  }

  lemma NewKeeps(s: World, h: Heights, x: Item, kind: Kind, count: nat)
    requires Valid(s, h) && x !in s
    ensures Valid(s[x := Fresh(kind, count)], h[x := 0])
  {
    var s' := s[x := Fresh(kind, count)];
    NewLinked(s, h, x, kind, count);
    forall a | a in s' ensures Weighs(s', a, 0) {
      NewAt(s, x, kind, count, a);
    }
  }

  lemma NewLinked(s: World, h: Heights, x: Item, kind: Kind, count: nat)
    requires Linked(s) && Ranked(s, h) && x !in s
    ensures Linked(s[x := Fresh(kind, count)]) && Ranked(s[x := Fresh(kind, count)], h[x := 0])
  {
    hide Distinct;
    assert Distinct([]) by { NoneTwice(); }
    var s' := s[x := Fresh(kind, count)];
    assert forall a :: a in s ==> s'[a] == s[a];
  }

  lemma NoneTwice()
    ensures Distinct([])
  {
  }

  lemma NewAt(s: World, x: Item, kind: Kind, count: nat, a: Item)
    requires Linked(s) && Coherent(s) && x !in s && (a in s || a == x)
    ensures Weighs(s[x := Fresh(kind, count)], a, 0)
  {
    var s' := s[x := Fresh(kind, count)];
    if a != x {
      assert Weighs(s, a, 0);
      TotalSame(Weights(s), Weights(s'), s[a].contents);
    }
  }
}
