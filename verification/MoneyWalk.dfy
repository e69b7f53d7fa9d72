/** From the things a cylinder holds to the purse that is paid from. */
module MoneyWalk {
  import opened Containment
  import opened ContainerWalk
  import opened ContainerIteration
  import opened Money
  import opened MoneyGame

  /** Adds what is worth something to a purse, putting containers in line. */
  method CollectThings(xs: seq<Item>, line: seq<Item>, purse: seq<Stack>, ghost s: World, ghost h: Heights)
    returns (line': seq<Item>, purse': seq<Stack>)
    requires Represents(s) && Forest(s, h) && In(s, xs) && In(s, line)
    ensures In(s, line')
    ensures Worth(purse') + Wealths(s, h, line') == Worth(purse) + Wealths(s, h, line) + Wealths(s, h, xs)
    ensures Sizes(s, h, line') <= Sizes(s, h, line) + Sizes(s, h, xs)
    ensures forall c :: c in line' ==> c in line || c.isContainer
    ensures forall e :: e in purse' ==> e in purse || StackWorth(e) > 0
  {
    hide Linked, Ranked, Size, Sizes, Wealths, Worth;
    line', purse' := line, purse;
    Nothing(s, h);
    for i := 0 to |xs|
      invariant In(s, line') && In(s, xs[..i])
      invariant Worth(purse') + Wealths(s, h, line') == Worth(purse) + Wealths(s, h, line) + Wealths(s, h, xs[..i])
      invariant Sizes(s, h, line') <= Sizes(s, h, line) + Sizes(s, h, xs[..i])
      invariant forall c :: c in line' ==> c in line || c.isContainer
      invariant forall e :: e in purse' ==> e in purse || StackWorth(e) > 0
    {
      var x := xs[i];
      OneMore(s, h, xs[..i], x);
      OneMore(s, h, line', x);
      assert xs[..i + 1] == xs[..i] + [x];
      if x.isContainer {
        line' := line' + [x];
      } else if x.kind.worth * x.count > 0 {
        var stack := Stack(x.kind.worth, x.count);
        WorthConcat(purse', [stack]);
        WorthOfOne(stack);
        purse' := purse' + [stack];
      }
    }
    assert xs[..|xs|] == xs;
  }

  /** The stacks that are worth something among all things a cylinder holds, at any depth: all the money there is. */
  method CollectPurse(things: seq<Item>, ghost s: World, ghost h: Heights) returns (purse: seq<Stack>)
    requires Represents(s) && Forest(s, h) && In(s, things)
    ensures Worth(purse) == Wealths(s, h, things)
    ensures forall e :: e in purse ==> StackWorth(e) > 0
  {
    hide Linked, Ranked, Size, Sizes, Wealth, Wealths, Worth;
    var listContainer;
    Nothing(s, h);
    assert Worth([]) == 0 by { EnoughForNothing([]); }
    listContainer, purse := CollectThings(things, [], [], s, h);
    while listContainer != []
      invariant In(s, listContainer) && Worth(purse) + Wealths(s, h, listContainer) == Wealths(s, h, things)
      invariant forall c :: c in listContainer ==> c.isContainer
      invariant forall e :: e in purse ==> StackWorth(e) > 0
      decreases Sizes(s, h, listContainer)
    {
      var container := listContainer[0];
      FirstInLine(s, h, listContainer);
      listContainer, purse := CollectThings(container.itemlist, listContainer[1..], purse, s, h);
    }
  }

  /** Paying from what a cylinder holds succeeds exactly if all the money in it is enough. */
  method RemoveMoneyFrom(things: seq<Item>, tile: seq<Stack>, ds: seq<nat>, amount: nat, ghost s: World,
                         ghost h: Heights)
    returns (ok: bool, cylinder: Cylinder)
    requires Represents(s) && Forest(s, h) && In(s, things) && Ascending(ds)
    ensures ok <==> amount <= Wealths(s, h, things)
    ensures ok && 1 in ds ==>
              Worth(cylinder.purse) + Worth(cylinder.tile) == Wealths(s, h, things) + Worth(tile) - amount
    ensures !ok && amount < 0x1_0000_0000 ==>
              Worth(cylinder.purse) == Wealths(s, h, things) && cylinder.tile == tile
  {
    hide Linked, Ranked, Wealths, Worth, Sorted, Enough, After, Pays;
    var purse := CollectPurse(things, s, h);
    cylinder := new Cylinder(ds, purse, tile);
    ghost var taken, kept, dropped;
    ok, taken, kept, dropped := cylinder.RemoveMoney(amount);
    if ok && 1 in ds {
      SmallestIsOne(ds);
      ModSmaller(amount);
      PaidExactly(ds, amount, purse, tile, cylinder.purse, cylinder.tile, taken, kept, dropped);
    }
    if !ok && amount < 0x1_0000_0000 {
      FailureTakesAll(amount, purse, tile, cylinder.purse, cylinder.tile, taken);
    }
  }
}
