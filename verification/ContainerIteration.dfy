/** The iterator over everything inside a container, and the walks that count money. */
module ContainerIteration {
  import opened Containment
  import opened ContainerWalk

  /** The items are as the snapshot says. */
  ghost predicate Represents(s: World)
    reads s.Keys
  {
    forall x :: x in s ==> x.itemlist == s[x].contents && x.kind == s[x].kind && x.count == s[x].count
  }

  /** What is still to be met: the rest of one container, and what the queue leads to. */
  ghost function Ahead(s: World, h: Heights, xs: seq<Item>, queue: seq<Item>): seq<Item>
    requires Forest(s, h) && In(s, xs) && In(s, queue)
  {
    assert In(s, queue + Bags(s, xs));
    xs + Walk(s, h, queue + Bags(s, xs))
  }

  lemma AheadStep(s: World, h: Heights, x: Item, xs: seq<Item>, queue: seq<Item>)
    requires Forest(s, h) && In(s, [x] + xs) && In(s, queue)
    ensures x in s && In(s, xs) && In(s, queue + Bags(s, [x]))
    ensures Ahead(s, h, [x] + xs, queue) == [x] + Ahead(s, h, xs, queue + Bags(s, [x]))
  {
    hide Forest, Walk, Bags;
    assert x in [x] + xs;
    assert forall y :: y in xs ==> y in [x] + xs;
    BagsConcat(s, [x], xs);
    assert queue + (Bags(s, [x]) + Bags(s, xs)) == (queue + Bags(s, [x])) + Bags(s, xs);
  }

  ghost function Rest(s: World, h: Heights, over: seq<Item>, current: nat): seq<Item>
    requires Forest(s, h) && In(s, over) && (over != [] ==> current < |s[over[0]].contents|)
  {
    if over == [] then [] else
    ContentsIn(s, h, over[0]);
    Ahead(s, h, s[over[0]].contents[current..], over[1..])
  }

  /** Going to the next item of the same container. */
  lemma RestWithin(s: World, h: Heights, over: seq<Item>, current: nat)
    requires Forest(s, h) && In(s, over) && over != [] && current + 1 < |s[over[0]].contents|
    ensures var x := s[over[0]].contents[current];
            && x in s && In(s, over + Bags(s, [x])) && (over + Bags(s, [x]))[0] == over[0]
            && Rest(s, h, over, current) == [x] + Rest(s, h, over + Bags(s, [x]), current + 1)
  {
    hide Forest, Ahead, Bags;
    ContentsIn(s, h, over[0]);
    var xs, x := s[over[0]].contents, s[over[0]].contents[current];
    assert xs[current..] == [x] + xs[current + 1..];
    AheadStep(s, h, x, xs[current + 1..], over[1..]);
    assert (over + Bags(s, [x]))[1..] == over[1..] + Bags(s, [x]);
  }

  /** Going from the last item of a container to the next container. */
  lemma RestBeyond(s: World, h: Heights, over: seq<Item>, current: nat)
    requires Forest(s, h) && In(s, over) && over != [] && current + 1 == |s[over[0]].contents|
    requires forall c :: c in over ==> s[c].contents != []
    ensures var x := s[over[0]].contents[current];
            && x in s && In(s, over[1..] + Bags(s, [x]))
            && (forall c :: c in Bags(s, [x]) ==> s[c].contents != [])
            && Rest(s, h, over, current) == [x] + Rest(s, h, over[1..] + Bags(s, [x]), 0)
  {
    hide Forest, Ahead, Bags;
    ContentsIn(s, h, over[0]);
    var x := s[over[0]].contents[current];
    assert s[over[0]].contents[current..] == [x] + [];
    AheadStep(s, h, x, [], over[1..]);
    AheadNothing(s, h, over[1..] + Bags(s, [x]));
    RestOfWhole(s, h, over[1..] + Bags(s, [x]));
  }

  lemma AheadNothing(s: World, h: Heights, q: seq<Item>)
    requires Forest(s, h) && In(s, q)
    ensures Ahead(s, h, [], q) == Walk(s, h, q)
  {
    assert q + [] == q;
  }

  lemma RestOfWhole(s: World, h: Heights, q: seq<Item>)
    requires Forest(s, h) && In(s, q) && forall c :: c in q ==> s[c].contents != []
    ensures Rest(s, h, q, 0) == Walk(s, h, q)
  {
    if q != [] {
      WalkFirst(s, h, q);
      assert s[q[0]].contents[0..] == s[q[0]].contents;
    }
  }

  class ContainerIterator {
    const base: Item
    var over: seq<Item>
    var current: nat
    ghost const s: World
    ghost const h: Heights

    ghost predicate Valid()
      reads this, s.Keys
    {
      && Represents(s) && Forest(s, h) && base in s && In(s, over)
      && (forall c :: c in over ==> s[c].contents != [])
      && (over != [] ==> current < |s[over[0]].contents|)
    }

    /** The items still to come. */
    ghost function ToCome(): seq<Item>
      requires Valid()
      reads this, s.Keys
    {
      Rest(s, h, over, current)
    }

    /** An iterator at the first item of a container. */
    constructor Begin(base: Item, ghost s: World, ghost h: Heights)
      requires Represents(s) && Forest(s, h) && base in s && base.isContainer
      ensures Valid() && this.base == base && this.s == s && this.h == h
      ensures ToCome() == s[base].contents + ByLevels(s, h, s[base].contents)
      ensures Distinct(ToCome()) && |ToCome()| == |Everything(s, h, base)|
      ensures forall x :: x in ToCome() <==> x in Everything(s, h, base)
    {
      this.base, this.s, this.h := base, s, h;
      over := if base.itemlist != [] then [base] else [];
      current := 0;
      new;
      WalkMeetsAll(s, h, base);
      StartsWhole(s, h, base);
    }

    /** Whether this is the end. */
    method AtEnd() returns (end: bool)
      requires Valid()
      ensures end <==> ToCome() == []
    {
      end := over == [];
    }

    method Get() returns (x: Item)
      requires Valid() && ToCome() != []
      ensures x == ToCome()[0]
    {
      x := over[0].itemlist[current];
    }

    method Advance()
      requires Valid() && ToCome() != []
      modifies this
      ensures Valid() && ToCome() == old(ToCome())[1..]
    {
      hide Forest, Walk, Rest;
      ghost var over0, current0 := over, current;
      RestStarts(s, h, over, current);
      ContentsIn(s, h, over[0]);
      var x := over[0].itemlist[current];
      assert x in s;
      BagsOfOne(s, h, x);
      if current + 1 < |over[0].itemlist| {
        RestWithin(s, h, over0, current0);
      } else {
        RestBeyond(s, h, over0, current0);
      }
      if x.isContainer && x.itemlist != [] {
        over := over + [x];
      }
      assert over == over0 + Bags(s, [x]);
      current := current + 1;
      if current == |over[0].itemlist| {
        over := over[1..];
        assert over == over0[1..] + Bags(s, [x]);
        current := 0;
      }
    }
  }

  lemma RestStarts(s: World, h: Heights, over: seq<Item>, current: nat)
    requires Forest(s, h) && In(s, over) && (over != [] ==> current < |s[over[0]].contents|)
    ensures Rest(s, h, over, current) == [] <==> over == []
  {
  }

  lemma BagsOfOne(s: World, h: Heights, x: Item)
    requires Forest(s, h) && x in s
    ensures Bags(s, [x]) == if x.isContainer && s[x].contents != [] then [x] else []
  {
    assert Bags(s, [x][1..]) == [];
  }

  lemma StartsWhole(s: World, h: Heights, c: Item)
    requires Forest(s, h) && c in s && c.isContainer
    ensures In(s, Bags(s, [c]))
    ensures Bags(s, [c]) == if s[c].contents != [] then [c] else []
    ensures Rest(s, h, Bags(s, [c]), 0) == Walk(s, h, Bags(s, [c]))
  {
    BagsOfOne(s, h, c);
    RestOfWhole(s, h, Bags(s, [c]));
  }

  /** How many items are inside a container, at any depth. */
  method GetItemHoldingCount(c: Item, ghost s: World, ghost h: Heights) returns (counter: nat)
    requires Represents(s) && Forest(s, h) && c in s && c.isContainer
    ensures counter == |Everything(s, h, c)|
  {
    hide Linked, Ranked, Rest, Everything;
    counter := 0;
    var it := new ContainerIterator.Begin(c, s, h);
    var end := it.AtEnd();
    while !end
      invariant it.Valid() && fresh(it) && it.s == s && it.h == h && (end <==> it.ToCome() == [])
      invariant counter + |it.ToCome()| == |Everything(s, h, c)|
      decreases |it.ToCome()|
    {
      counter := counter + 1;
      it.Advance();
      end := it.AtEnd();
    }
  }

  /** Whether an item is inside a container, at any depth. */
  method IsHoldingItem(c: Item, item: Item, ghost s: World, ghost h: Heights) returns (holding: bool)
    requires Represents(s) && Forest(s, h) && c in s && c.isContainer
    ensures holding <==> item in s && item != c && c in Up(s, h, item)
  {
    hide Linked, Ranked, Rest, Up, ByLevels, Distinct;
    InsideIn(s, h, c);
    hide Everything;
    var it := new ContainerIterator.Begin(c, s, h);
    var end := it.AtEnd();
    while !end
      invariant it.Valid() && fresh(it) && it.s == s && it.h == h && (end <==> it.ToCome() == [])
      invariant item in Everything(s, h, c) <==> item in it.ToCome()
      decreases |it.ToCome()|
    {
      var x := it.Get();
      if x == item {
        return true;
      }
      assert it.ToCome() == [x] + it.ToCome()[1..];
      it.Advance();
      end := it.AtEnd();
    }
    return false;
  }

  // ---------------------------------------------------------------- money

  /** What an item is worth: a container what is in it is worth, anything else its own worth. */
  ghost function Wealth(s: World, h: Heights, x: Item): nat
    requires Forest(s, h) && x in s
    decreases h[x], |s[x].contents| + 1
  {
    if x.isContainer then WealthBelow(s, h, x, s[x].contents) else s[x].kind.worth * s[x].count
  }

  ghost function WealthBelow(s: World, h: Heights, c: Item, xs: seq<Item>): nat
    requires Forest(s, h) && c in s && forall x :: x in xs ==> x in s && s[x].parent == c
    decreases h[c], |xs|
  {
    if xs == [] then 0 else Wealth(s, h, xs[0]) + WealthBelow(s, h, c, xs[1..])
  }

  ghost function Wealths(s: World, h: Heights, xs: seq<Item>): nat
    requires Forest(s, h) && In(s, xs)
  {
    if xs == [] then 0 else Wealth(s, h, xs[0]) + Wealths(s, h, xs[1..])
  }

  lemma {:induction false} WealthIs(s: World, h: Heights, c: Item, xs: seq<Item>)
    requires Forest(s, h) && c in s && forall x :: x in xs ==> x in s && s[x].parent == c
    ensures In(s, xs) && WealthBelow(s, h, c, xs) == Wealths(s, h, xs)
  {
    if xs != [] {
      WealthIs(s, h, c, xs[1..]);
    }
  }

  lemma {:induction false} WealthsConcat(s: World, h: Heights, xs: seq<Item>, ys: seq<Item>)
    requires Forest(s, h) && In(s, xs) && In(s, ys)
    ensures In(s, xs + ys) && Wealths(s, h, xs + ys) == Wealths(s, h, xs) + Wealths(s, h, ys)
  {
    hide Forest, Wealth;
    if xs == [] {
      assert xs + ys == ys;
    } else {
      WealthsConcat(s, h, xs[1..], ys);
      assert (xs + ys)[1..] == xs[1..] + ys;
    }
  }

  /** Counts the worth of some items, putting containers among them in line. */
  method CountThings(xs: seq<Item>, line: seq<Item>, sum: nat, ghost s: World, ghost h: Heights)
    returns (line': seq<Item>, sum': nat)
    requires Represents(s) && Forest(s, h) && In(s, xs) && In(s, line)
    ensures In(s, line') && sum' + Wealths(s, h, line') == sum + Wealths(s, h, line) + Wealths(s, h, xs)
    ensures Sizes(s, h, line') <= Sizes(s, h, line) + Sizes(s, h, xs)
    ensures forall c :: c in line' ==> c in line || c.isContainer
  {
    hide Linked, Ranked, Size, Sizes, Wealths;
    line', sum' := line, sum;
    Nothing(s, h);
    for i := 0 to |xs|
      invariant In(s, line') && In(s, xs[..i])
      invariant sum' + Wealths(s, h, line') == sum + Wealths(s, h, line) + Wealths(s, h, xs[..i])
      invariant Sizes(s, h, line') <= Sizes(s, h, line) + Sizes(s, h, xs[..i])
      invariant forall c :: c in line' ==> c in line || c.isContainer
    {
      var x := xs[i];
      OneMore(s, h, xs[..i], x);
      OneMore(s, h, line', x);
      assert xs[..i + 1] == xs[..i] + [x];
      if x.isContainer {
        line' := line' + [x];
      } else if x.kind.worth * x.count > 0 {
        sum' := sum' + x.kind.worth * x.count;
      }
    }
    assert xs[..|xs|] == xs;
  }

  lemma Nothing(s: World, h: Heights)
    requires Forest(s, h)
    ensures In(s, []) && Sizes(s, h, []) == 0 && Wealths(s, h, []) == 0
  {
  }

  lemma OneMore(s: World, h: Heights, xs: seq<Item>, x: Item)
    requires Forest(s, h) && In(s, xs) && x in s
    ensures In(s, xs + [x])
    ensures Wealths(s, h, xs + [x]) == Wealths(s, h, xs) + Wealth(s, h, x)
    ensures Sizes(s, h, xs + [x]) == Sizes(s, h, xs) + Size(s, h, x)
    ensures !x.isContainer ==> Wealth(s, h, x) == s[x].kind.worth * s[x].count
  {
    WealthsConcat(s, h, xs, [x]);
    SizesConcat(s, h, xs, [x]);
    assert Wealths(s, h, [x][1..]) == 0 && Sizes(s, h, [x][1..]) == 0;
  }

  lemma FirstInLine(s: World, h: Heights, line: seq<Item>)
    requires Forest(s, h) && In(s, line) && line != [] && line[0].isContainer
    ensures In(s, line[1..]) && In(s, s[line[0]].contents)
    ensures Wealths(s, h, line) == Wealths(s, h, line[1..]) + Wealths(s, h, s[line[0]].contents)
    ensures Sizes(s, h, line) == Sizes(s, h, line[1..]) + 1 + Sizes(s, h, s[line[0]].contents)
  {
    ContentsIn(s, h, line[0]);
    SizeIs(s, h, line[0], s[line[0]].contents);
    WealthIs(s, h, line[0], s[line[0]].contents);
  }

  /** All the money in the things a cylinder holds, at any depth. */
  method GetMoney(things: seq<Item>, ghost s: World, ghost h: Heights) returns (moneyCount: nat)
    requires Represents(s) && Forest(s, h) && In(s, things)
    ensures moneyCount == Wealths(s, h, things)
  {
    hide Linked, Ranked, Size, Sizes, Wealth, Wealths;
    var listContainer;
    Nothing(s, h);
    listContainer, moneyCount := CountThings(things, [], 0, s, h);
    while listContainer != []
      invariant In(s, listContainer) && moneyCount + Wealths(s, h, listContainer) == Wealths(s, h, things)
      invariant forall c :: c in listContainer ==> c.isContainer
      decreases Sizes(s, h, listContainer)
    {
      var container := listContainer[0];
      FirstInLine(s, h, listContainer);
      listContainer, moneyCount := CountThings(container.itemlist, listContainer[1..], moneyCount, s, h);
    }
  }
}
