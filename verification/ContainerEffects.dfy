/** What the operations on containers do to the contents: who holds how many of what. */
module ContainerEffects {
  import opened Containment

  /** How many items of each type count towards a sum. */
  function Counts(s: World, kind: Kind): map<Item, int> {
    map x | x in s :: if s[x].kind == kind then s[x].count else 0
  }

  /** How many items of a type a container holds directly. */
  function Held(s: World, c: Item, kind: Kind): int
    requires c in s
  {
    Total(Counts(s, kind), s[c].contents)
  }

  /** From `s` to `s'`, the one container `c` gains `d` of one type, and `slots` places are filled in it. */
  ghost predicate Gains(s: World, s': World, c: Item, kind: Kind, d: int, slots: int) {
    && s.Keys <= s'.Keys
    && (forall k, t {:trigger Held(s', k, t)} :: k in s ==>
        Held(s', k, t) == Held(s, k, t) + if k == c && t == kind then d else 0)
    && (forall k :: k in s ==> |s'[k].contents| == |s[k].contents| + if k == c then slots else 0)
  }

  /** Nothing but weights changes on the way up. */
  lemma PropagateHeld(s: World, h: Heights, c: Item, d: int, k: Item, t: Kind)
    requires Ranked(s, h) && c in s && k in s
    ensures Held(Propagate(s, h, c, d), k, t) == Held(s, k, t)
  {
    var s' := Propagate(s, h, c, d);
    TotalSame(Counts(s, t), Counts(s', t), s[k].contents);
  }

  lemma LinkHeld(s: World, c: Item, x: Item, k: Item, t: Kind)
    requires c in s && x in s && c != x && k in s
    ensures Held(Link(s, c, x), k, t) == Held(s, k, t) + if k == c && t == s[x].kind then s[x].count else 0
  {
    var s' := Link(s, c, x);
    TotalSame(Counts(s, t), Counts(s', t), s[k].contents);
    if k == c {
      assert s'[c].contents[1..] == s[c].contents;
    }
  }

  lemma AddGains(s: World, h: Heights, c: Item, x: Item)
    requires MayAdd(s, h, c, x)
    ensures Gains(s, Add(s, h, c, x), c, s[x].kind, s[x].count, 1)
  {
    hide Linked, Ranked, Propagate, Held, Raise;
    LinkLinked(s, h, c, x);
    LinkRanked(s, h, c, x);
    var s', h' := Add(s, h, c, x), Raise(s, h, c, x);
    forall k, t {:trigger Held(s', k, t)} | k in s
      ensures Held(s', k, t) == Held(s, k, t) + if k == c && t == s[x].kind then s[x].count else 0
    {
      LinkHeld(s, c, x, k, t);
      PropagateHeld(Link(s, c, x), h', c, Weight(s, x), k, t);
    }
  }

  lemma UnlinkHeld(s: World, c: Item, i: nat, k: Item, t: Kind)
    requires c in s && i < |s[c].contents| && s[c].contents[i] in s && s[c].contents[i] != c && k in s
    ensures var x := s[c].contents[i];
            Held(Unlink(s, c, i), k, t) == Held(s, k, t) - if k == c && t == s[x].kind then s[x].count else 0
  {
    hide Without;
    var s' := Unlink(s, c, i);
    if k == c {
      TotalWithout(Counts(s, t), s[c].contents, i);
    }
    TotalSame(Counts(s, t), Counts(s', t), s'[k].contents);
  }

  lemma RemoveGains(s: World, h: Heights, c: Item, x: Item)
    requires Valid(s, h) && c in s && x in s[c].contents
    ensures x in s
    ensures Gains(s, Remove(s, h, c, x), c, s[x].kind, -(s[x].count as int), -1)
  {
    hide Valid, Linked, Ranked, Propagate, Held;
    HeldMayBeRemoved(s, h, c, x);
    var i := IndexOf(s[c].contents, x);
    UnlinkLinked(s, h, c, i);
    var s' := Remove(s, h, c, x);
    forall k, t {:trigger Held(s', k, t)} | k in s
      ensures Held(s', k, t) == Held(s, k, t) - if k == c && t == s[x].kind then s[x].count else 0
    {
      UnlinkHeld(s, c, i, k, t);
      PropagateHeld(Unlink(s, c, i), h, c, -Weight(s, x), k, t);
    }
  }

  lemma ChangeHeld(s: World, x: Item, count: nat, k: Item, t: Kind)
    requires Linked(s) && x in s && s[x].parent != null && k in s
    ensures Held(Change(s, x, s[x].kind, count), k, t)
            == Held(s, k, t) + if k == s[x].parent && t == s[x].kind then count - s[x].count else 0
  {
    var s', xs := Change(s, x, s[x].kind, count), s[k].contents;
    assert k == s[x].parent ==> x in xs && Distinct(xs);
    assert k != s[x].parent ==> x !in xs;
    hide Linked, Distinct;
    var f, g := Counts(s, t), Counts(s', t);
    assert forall y :: y in s && y != x ==> f[y] == g[y];
    if k == s[x].parent {
      TotalChange(f, g, xs, x);
    } else {
      TotalSame(f, g, xs);
    }
  }

  lemma UpdateGains(s: World, h: Heights, x: Item, count: nat)
    requires Valid(s, h) && x in s && s[x].parent != null
    ensures Gains(s, Update(s, h, x, s[x].kind, count), s[x].parent, s[x].kind, count - s[x].count, 0)
  {
    hide Linked, Ranked, Coherent, Propagate, Held, OwnWeight;
    ChangeLinked(s, h, x, s[x].kind, count);
    var s', s1 := Update(s, h, x, s[x].kind, count), Change(s, x, s[x].kind, count);
    forall k, t {:trigger Held(s', k, t)} | k in s
      ensures Held(s', k, t) == Held(s, k, t) + if k == s[x].parent && t == s[x].kind then count - s[x].count else 0
    {
      ChangeHeld(s, x, count, k, t);
      PropagateHeld(s1, h, s[x].parent, OwnWeight(s1[x].kind, s1[x].count) - OwnWeight(s[x].kind, s[x].count), k, t);
    }
  }

  lemma NewGains(s: World, h: Heights, x: Item, kind: Kind, count: nat, c: Item)
    requires Linked(s) && x !in s
    ensures Gains(s, s[x := Fresh(kind, count)], c, kind, 0, 0)
  {
    var s' := s[x := Fresh(kind, count)];
    forall k, t {:trigger Held(s', k, t)} | k in s ensures Held(s', k, t) == Held(s, k, t) {
      TotalSame(Counts(s, t), Counts(s', t), s[k].contents);
    }
  }

  /** Gains of the same container and type add up. */
  lemma GainsChain(s: World, s1: World, s2: World, c: Item, kind: Kind, d1: int, d2: int, n1: int, n2: int)
    requires Gains(s, s1, c, kind, d1, n1) && Gains(s1, s2, c, kind, d2, n2)
    ensures Gains(s, s2, c, kind, d1 + d2, n1 + n2)
  {
    hide Held;
    forall k, t {:trigger Held(s2, k, t)} | k in s
      ensures Held(s2, k, t) == Held(s, k, t) + if k == c && t == kind then d1 + d2 else 0
    {
      assert Held(s1, k, t) == Held(s, k, t) + if k == c && t == kind then d1 else 0;
    }
  }

  // ---------------------------------------------------------------- the way up is not disturbed

  lemma {:induction false} UpSame(s: World, h: Heights, s': World, h': Heights, c: Item)
    requires Ranked(s, h) && Ranked(s', h') && c in s
    requires forall a :: a in Up(s, h, c) ==> a in s && a in s' && s'[a].parent == s[a].parent
    ensures c in s' && Up(s', h', c) == Up(s, h, c)
    decreases Above(h, c)
  {
    UpStarts(s, h, c);
    if s[c].parent != null {
      assert s[c].parent !in Above(h, s[c].parent) && s[c].parent in Above(h, c);
      UpSame(s, h, s', h', s[c].parent);
    }
  }

  // ---------------------------------------------------------------- items keep their place, type and count

  /** All items but `x` are in the same container as before, and have the same type and count. */
  ghost predicate OthersSame(s: World, s': World, x: Item?) {
    && s.Keys <= s'.Keys
    && forall y :: y in s && y != x ==>
         s'[y].parent == s[y].parent && s'[y].kind == s[y].kind && s'[y].count == s[y].count
  }

  lemma AddPlaces(s: World, h: Heights, c: Item, x: Item)
    requires MayAdd(s, h, c, x)
    ensures var s' := Add(s, h, c, x);
            && OthersSame(s, s', x) && s'.Keys == s.Keys
            && s'[x].parent == c && s'[x].kind == s[x].kind && s'[x].count == s[x].count
  {
    hide Linked, Ranked, Propagate, Raise;
    LinkLinked(s, h, c, x);
    LinkRanked(s, h, c, x);
  }

  lemma RemovePlaces(s: World, h: Heights, c: Item, x: Item)
    requires Valid(s, h) && c in s && x in s[c].contents
    ensures x in s
    ensures var s' := Remove(s, h, c, x);
            && OthersSame(s, s', x) && s'.Keys == s.Keys
            && s'[x].parent == null && s'[x].kind == s[x].kind && s'[x].count == s[x].count
  {
    hide Linked, Ranked, Propagate, Coherent;
    HeldMayBeRemoved(s, h, c, x);
    UnlinkLinked(s, h, c, IndexOf(s[c].contents, x));
  }

  lemma UpdatePlaces(s: World, h: Heights, x: Item, kind: Kind, count: nat)
    requires Valid(s, h) && x in s
    ensures var s' := Update(s, h, x, kind, count);
            && OthersSame(s, s', x) && s'.Keys == s.Keys
            && s'[x].parent == s[x].parent && s'[x].kind == kind && s'[x].count == count
  {
    hide Linked, Ranked, Propagate, Coherent;
    ChangeLinked(s, h, x, kind, count);
  }

  /** Stacks hold at most a hundred. */
  ghost predicate StacksFit(s: World) {
    forall x :: x in s && s[x].kind.stackable ==> s[x].count <= 100
  }

  lemma StacksStay(s: World, s': World, x: Item)
    requires StacksFit(s) && OthersSame(s, s', x) && s'.Keys <= s.Keys + {x}
    requires x in s' && (s'[x].kind.stackable ==> s'[x].count <= 100)
    ensures StacksFit(s')
  {
  }

  // ---------------------------------------------------------------- moving

  /** From `s` to `s'`, `d` items of a type have gone from one container to another, or stayed in the same. */
  ghost predicate Moved(s: World, s': World, from: Item, dest: Item, kind: Kind, d: int) {
    && s.Keys <= s'.Keys
    && forall k, t {:trigger Held(s', k, t)} :: k in s ==>
         Held(s', k, t)
         == Held(s, k, t) + if t == kind then (if k == dest then d else 0) - (if k == from then d else 0) else 0
  }

  lemma GainsMove(s: World, s1: World, s2: World, from: Item, dest: Item, kind: Kind, d: int, n1: int, n2: int)
    requires Gains(s, s1, from, kind, -d, n1) && Gains(s1, s2, dest, kind, d, n2)
    ensures Moved(s, s2, from, dest, kind, d)
    ensures forall k :: k in s ==>
              |s2[k].contents| == |s[k].contents| + (if k == from then n1 else 0) + (if k == dest then n2 else 0)
  {
    hide Held;
    forall k, t {:trigger Held(s2, k, t)} | k in s
      ensures Held(s2, k, t)
              == Held(s, k, t) + if t == kind then (if k == dest then d else 0) - (if k == from then d else 0) else 0
    {
      assert Held(s1, k, t) == Held(s, k, t) + if k == from && t == kind then -d else 0;
    }
  }

  lemma NothingMoved(s: World, from: Item, dest: Item, kind: Kind)
    ensures Moved(s, s, from, dest, kind, 0)
  {
  }

  /** Whatever a move does to any two containers, together they hold what they held. */
  lemma MovedConserves(s: World, s': World, from: Item, dest: Item, kind: Kind, d: int, t: Kind)
    requires Moved(s, s', from, dest, kind, d) && from in s && dest in s
    ensures Held(s', from, t) + (if from == dest then 0 else Held(s', dest, t))
            == Held(s, from, t) + (if from == dest then 0 else Held(s, dest, t))
    ensures forall k :: k in s && k != from && k != dest ==> Held(s', k, t) == Held(s, k, t)
  {
    hide Held;
    assert Held(s', from, t) == Held(s, from, t) + if t == kind then (if from == dest then d else 0) - d else 0;
    assert Held(s', dest, t) == Held(s, dest, t) + if t == kind then d - (if dest == from then d else 0) else 0;
  }

  // ---------------------------------------------------------------- what is where, and in which order

  function Remaining(xs: seq<Item>, taken: set<Item>): seq<Item> {
    if xs == [] then [] else (if xs[0] in taken then [] else [xs[0]]) + Remaining(xs[1..], taken)
  }

  lemma {:induction false} AllRemain(xs: seq<Item>, taken: set<Item>)
    requires forall x :: x in xs ==> x !in taken
    ensures Remaining(xs, taken) == xs
  {
    if xs != [] {
      AllRemain(xs[1..], taken);
    }
  }

  lemma RemainingFront(x: Item, xs: seq<Item>, taken: set<Item>)
    ensures Remaining([x] + xs, taken) == (if x in taken then [] else [x]) + Remaining(xs, taken)
  {
    assert ([x] + xs)[1..] == xs;
  }

  lemma {:induction false} RemainingConcat(xs: seq<Item>, ys: seq<Item>, taken: set<Item>)
    ensures Remaining(xs + ys, taken) == Remaining(xs, taken) + Remaining(ys, taken)
  {
    if xs == [] {
      assert xs + ys == ys;
    } else {
      hide Remaining;
      RemainingConcat(xs[1..], ys, taken);
      RemainingFront(xs[0], xs[1..], taken);
      RemainingFront(xs[0], xs[1..] + ys, taken);
      assert xs == [xs[0]] + xs[1..] && xs + ys == [xs[0]] + (xs[1..] + ys);
    }
  }

  lemma {:induction false} RemainingTwice(xs: seq<Item>, t: set<Item>, t': set<Item>)
    ensures Remaining(Remaining(xs, t), t') == Remaining(xs, t + t')
  {
    if xs != [] {
      RemainingTwice(xs[1..], t, t');
      RemainingFront(xs[0], Remaining(xs[1..], t), t');
      assert [] + Remaining(xs[1..], t) == Remaining(xs[1..], t);
    }
  }

  lemma {:induction false} RemainingOne(xs: seq<Item>, x: Item)
    requires Distinct(xs) && x in xs
    ensures Remaining(xs, {x}) == Without(xs, IndexOf(xs, x))
  {
    if xs[0] == x {
      AllRemain(xs[1..], {x});
    } else {
      RemainingOne(xs[1..], x);
      assert Without(xs, IndexOf(xs, x)) == [xs[0]] + Without(xs[1..], IndexOf(xs[1..], x));
    }
  }

  /** Some items are gone, and some are in front of what is left of one container; all else stays in its order. */
  ghost predicate Shelved(s: World, s': World, dest: Item, front: seq<Item>, gone: set<Item>) {
    && s.Keys <= s'.Keys
    && forall c :: c in s ==>
         s'[c].contents == (if c == dest then front else []) + Remaining(s[c].contents, gone)
  }

  lemma SameShelves(s: World, s': World, dest: Item)
    requires s.Keys <= s'.Keys && forall c :: c in s ==> s'[c].contents == s[c].contents
    ensures Shelved(s, s', dest, [], {})
  {
    forall c | c in s ensures Remaining(s[c].contents, {}) == s[c].contents {
      AllRemain(s[c].contents, {});
    }
  }

  lemma UpdateShelves(s: World, h: Heights, x: Item, kind: Kind, count: nat, dest: Item)
    requires Valid(s, h) && x in s
    ensures Shelved(s, Update(s, h, x, kind, count), dest, [], {})
  {
    hide Valid, Update, Shelved;
    UpdateShape(s, h, x, kind, count);
    SameShelves(s, Update(s, h, x, kind, count), dest);
  }

  lemma RemoveShelves(s: World, h: Heights, c: Item, x: Item, dest: Item)
    requires Valid(s, h) && c in s && x in s[c].contents
    ensures x in s && Shelved(s, Remove(s, h, c, x), dest, [], {x})
  {
    hide Ranked, Coherent, Remove, Remaining, Without;
    HeldMayBeRemoved(s, h, c, x);
    RemoveShape(s, h, c, x);
    RemainingOne(s[c].contents, x);
    forall a | a in s && a != c ensures Remaining(s[a].contents, {x}) == s[a].contents {
      AllRemain(s[a].contents, {x});
    }
  }

  lemma AddShelves(s: World, h: Heights, c: Item, x: Item)
    requires MayAdd(s, h, c, x)
    ensures Shelved(s, Add(s, h, c, x), c, [x], {})
  {
    hide Valid, Add, Up, Remaining, MayAdd;
    AddShape(s, h, c, x);
    forall a | a in s ensures Remaining(s[a].contents, {}) == s[a].contents {
      AllRemain(s[a].contents, {});
    }
  }

  lemma ShelvedChain(s: World, s1: World, s2: World, c: Item, dest: Item, front: seq<Item>, gone: set<Item>)
    requires Shelved(s, s1, c, [], gone) && Shelved(s1, s2, dest, front, {})
    ensures Shelved(s, s2, dest, front, gone)
  {
    hide Remaining;
    forall c | c in s ensures Remaining(s1[c].contents, {}) == s1[c].contents {
      AllRemain(s1[c].contents, {});
    }
  }
}
