/**
  Paying from a container: stacks are taken out of it at any depth, and change is put into it, or onto the
  ground where it does not fit.
 */
module ContainerMoney {
  import opened Containment
  import opened ContainerEffects
  import opened ContainerWalk
  import opened ContainerIteration
  import opened ContainerGame
  import opened ContainerWealth
  import opened Money
  import opened MoneyGame

  // ---------------------------------------------------------------- two containers that do not meet

  /** Neither of two containers is in the other. */
  ghost predicate Apart(s: World, h: Heights, p: Item, q: Item)
    requires Ranked(s, h) && p in s && q in s
  {
    p !in Up(s, h, q) && q !in Up(s, h, p)
  }

  /** Of two containers around an item one is in the other. */
  lemma {:induction false} ChainOrdered(s: World, h: Heights, c: Item, a: Item, b: Item)
    requires Ranked(s, h) && c in s && a in Up(s, h, c) && b in Up(s, h, c)
    ensures a in s && b in s && (a in Up(s, h, b) || b in Up(s, h, a))
    decreases Above(h, c)
  {
    NothingContainsItself(s, h, c);
    UpStep(s, h, c);
    if a != c && b != c {
      ChainOrdered(s, h, s[c].parent, a, b);
    }
  }

  /** A container to pay from, and one for what does not fit into it. */
  ghost predicate Ready(s: World, h: Heights, purse: Item, ground: Item) {
    && Valid(s, h) && StacksFit(s) && purse in s && ground in s && purse.isContainer && ground.isContainer
    && Apart(s, h, purse, ground)
  }

  // ---------------------------------------------------------------- what has happened since

  /** The items taken are nowhere, and all others that there were are where they were. */
  ghost predicate Since(s: World, s': World, taken: set<Item>) {
    && s.Keys <= s'.Keys
    && (forall x :: x in taken ==> x in s && !x.isContainer)
    && (forall y :: y in s ==>
          && s'[y].kind == s[y].kind && s'[y].count == s[y].count
          && s'[y].parent == if y in taken then null else s[y].parent)
  }

  /** New stacks that were put into the container, and others that fell to the ground. */
  datatype Change = Change(put: seq<Item>, kept: seq<Stack>, fallen: seq<Item>, dropped: seq<Stack>)

  const NOTHING := Change([], [], [], [])

  function Plus(a: Change, b: Change): Change {
    Change(a.put + b.put, a.kept + b.kept, a.fallen + b.fallen, a.dropped + b.dropped)
  }

  /** The items are coins in stacks as they should be. */
  ghost predicate Coined(s: World, coins: seq<Kind>, xs: seq<Item>, stacks: seq<Stack>) {
    && |xs| == |stacks|
    && forall i :: 0 <= i < |xs| ==>
         && xs[i] in s && s[xs[i]].kind in coins
         && s[xs[i]].kind.worth == stacks[i].worth && s[xs[i]].count == stacks[i].count
  }

  /** In front of what is left of its contents each of the two containers has its part of the new stacks. */
  ghost predicate Refilled(s: World, s': World, purse: Item, ground: Item, taken: set<Item>, change: Change) {
    && s.Keys <= s'.Keys
    && forall c :: c in s ==>
         s'[c].contents
         == (if c == purse then change.put else if c == ground then change.fallen else [])
            + Remaining(s[c].contents, taken)
  }

  ghost predicate Laid(s: World, s': World, purse: Item, ground: Item, coins: seq<Kind>, taken: set<Item>,
                       change: Change)
  {
    && Refilled(s, s', purse, ground, taken, change)
    && Coined(s', coins, change.put, change.kept) && Coined(s', coins, change.fallen, change.dropped)
    && (forall x :: x in change.put || x in change.fallen ==> x !in s)
  }

  /** From one world to another: what was taken and what was given, and what the two containers are worth now. */
  ghost predicate Account(s: World, h: Heights, s': World, h': Heights, purse: Item, ground: Item, coins: seq<Kind>,
                          taken: set<Item>, paid: int, change: Change)
  {
    && Ready(s, h, purse, ground) && Ready(s', h', purse, ground) && Since(s, s', taken)
    && Laid(s, s', purse, ground, coins, taken, change)
    && Wealth(s', h', purse) == Wealth(s, h, purse) - paid + Worth(change.kept)
    && Wealth(s', h', ground) == Wealth(s, h, ground) + Worth(change.dropped)
  }

  lemma LaidStart(s: World, purse: Item, ground: Item, coins: seq<Kind>)
    ensures Laid(s, s, purse, ground, coins, {}, NOTHING)
  {
    forall c | c in s ensures Remaining(s[c].contents, {}) == s[c].contents {
      AllRemain(s[c].contents, {});
    }
  }

  lemma AccountStart(s: World, h: Heights, purse: Item, ground: Item, coins: seq<Kind>)
    requires Ready(s, h, purse, ground)
    ensures Account(s, h, s, h, purse, ground, coins, {}, 0, NOTHING)
  {
    hide Valid, StacksFit, Apart, Wealth, Laid;
    LaidStart(s, purse, ground, coins);
    assert Worth([]) == 0;
  }

  lemma StillCoined(s: World, s': World, coins: seq<Kind>, xs: seq<Item>, stacks: seq<Stack>, ys: seq<Item>,
                    stacks': seq<Stack>, taken: set<Item>)
    requires Since(s, s', taken) && Coined(s, coins, xs, stacks) && Coined(s', coins, ys, stacks')
    ensures Coined(s', coins, ys + xs, stacks' + stacks)
  {
  }

  lemma RefilledAgain(s: World, s1: World, s2: World, purse: Item, ground: Item, t: set<Item>, t': set<Item>,
                      change: Change, change': Change)
    requires Refilled(s, s1, purse, ground, t, change) && Refilled(s1, s2, purse, ground, t', change')
    requires forall x :: x in change.put || x in change.fallen ==> x !in t'
    ensures Refilled(s, s2, purse, ground, t + t', Plus(change', change))
  {
    hide Remaining;
    forall c | c in s
      ensures s2[c].contents
              == (if c == purse then change'.put + change.put
                  else if c == ground then change'.fallen + change.fallen else [])
                 + Remaining(s[c].contents, t + t')
    {
      var xs := if c == purse then change.put else if c == ground then change.fallen else [];
      var ys := if c == purse then change'.put else if c == ground then change'.fallen else [];
      RemainingConcat(xs, Remaining(s[c].contents, t), t');
      AllRemain(xs, t');
      RemainingTwice(s[c].contents, t, t');
      assert ys + (xs + Remaining(s[c].contents, t + t')) == (ys + xs) + Remaining(s[c].contents, t + t');
    }
  }

  lemma LaidChain(s: World, s1: World, s2: World, purse: Item, ground: Item, coins: seq<Kind>, t: set<Item>,
                  change: Change, t': set<Item>, change': Change)
    requires Laid(s, s1, purse, ground, coins, t, change) && Laid(s1, s2, purse, ground, coins, t', change')
    requires Since(s1, s2, t') && t' <= s.Keys
    ensures Laid(s, s2, purse, ground, coins, t + t', Plus(change', change))
  {
    hide Refilled, Coined, Since, Remaining;
    assert s.Keys <= s1.Keys by { KeysKept(s, s1, purse, ground, t, change); }
    RefilledAgain(s, s1, s2, purse, ground, t, t', change, change');
    StillCoined(s1, s2, coins, change.put, change.kept, change'.put, change'.kept, t');
    StillCoined(s1, s2, coins, change.fallen, change.dropped, change'.fallen, change'.dropped, t');
  }

  lemma KeysKept(s: World, s': World, purse: Item, ground: Item, taken: set<Item>, change: Change)
    requires Refilled(s, s', purse, ground, taken, change)
    ensures s.Keys <= s'.Keys
  {
  }

  lemma SinceChain(s: World, s1: World, s2: World, t: set<Item>, t': set<Item>)
    requires Since(s, s1, t) && Since(s1, s2, t') && t' <= s.Keys
    ensures Since(s, s2, t + t')
  {
  }

  lemma AccountChain(s: World, h: Heights, s1: World, h1: Heights, s2: World, h2: Heights, purse: Item, ground: Item,
                     coins: seq<Kind>, t: set<Item>, paid: int, change: Change, t': set<Item>, paid': int,
                     change': Change)
    requires Account(s, h, s1, h1, purse, ground, coins, t, paid, change)
    requires Account(s1, h1, s2, h2, purse, ground, coins, t', paid', change') && t' <= s.Keys
    ensures Account(s, h, s2, h2, purse, ground, coins, t + t', paid + paid', Plus(change', change))
  {
    hide Ready, Since, Laid, Wealth, Worth;
    SinceChain(s, s1, s2, t, t');
    LaidChain(s, s1, s2, purse, ground, coins, t, change, t', change');
    WorthConcat(change'.kept, change.kept);
    WorthConcat(change'.dropped, change.dropped);
    ReadyForest(s, h, purse, ground);
    ReadyForest(s1, h1, purse, ground);
    ReadyForest(s2, h2, purse, ground);
  }

  /** The way up from what was not taken is what it was. */
  lemma UpSince(s: World, h: Heights, s': World, h': Heights, taken: set<Item>, y: Item)
    requires Valid(s, h) && Ranked(s', h') && Since(s, s', taken) && y in s && y !in taken
    ensures y in s' && Up(s', h', y) == Up(s, h, y)
  {
    NothingContainsItself(s, h, y);
    forall a | a in Up(s, h, y) ensures a in s && a !in taken {
      if a != y && !a.isContainer {
        OnlyContainersAbove(s, h, y, a);
      }
    }
    hide Linked, Ranked, Coherent, Up;
    UpSame(s, h, s', h', y);
  }

  lemma ApartSince(s: World, h: Heights, s': World, h': Heights, taken: set<Item>, purse: Item, ground: Item)
    requires Valid(s, h) && Ranked(s', h') && Since(s, s', taken) && purse in s && ground in s
    requires purse.isContainer && ground.isContainer && Apart(s, h, purse, ground)
    ensures Apart(s', h', purse, ground)
  {
    hide Linked, Ranked, Coherent, Up;
    UpSince(s, h, s', h', taken, purse);
    UpSince(s, h, s', h', taken, ground);
  }

  /** What is gained somewhere in one container is gained by that one, and not by the other. */
  lemma OneGains(s: World, h: Heights, s': World, h': Heights, c: Item, d: int, p: Item, q: Item)
    requires Forest(s, h) && c in s && WealthGains(s, h, s', h', c, d)
    requires p in s && q in s && Apart(s, h, p, q) && p in Up(s, h, c)
    ensures p in s' && q in s'
    ensures Wealth(s', h', p) == Wealth(s, h, p) + d && Wealth(s', h', q) == Wealth(s, h, q)
  {
    hide Linked, Ranked, Up, Wealth;
    if q in Up(s, h, c) {
      ChainOrdered(s, h, c, p, q);
    }
  }

  // ---------------------------------------------------------------- a new stack

  lemma PutSince(s: World, h: Heights, x: Item, kind: Kind, n: nat, into: Item)
    requires Valid(s, h) && x !in s && MayAdd(s[x := Fresh(kind, n)], h[x := 0], into, x)
    ensures Since(s, s[x := Fresh(kind, n)], {})
    ensures Since(s, Add(s[x := Fresh(kind, n)], h[x := 0], into, x), {})
    ensures Add(s[x := Fresh(kind, n)], h[x := 0], into, x).Keys == s.Keys + {x}
  {
    hide Valid, Add, Up;
    AddPlaces(s[x := Fresh(kind, n)], h[x := 0], into, x);
  }

  /** A new stack put into one of two containers makes that one worth more. */
  lemma PutWealth(s: World, h: Heights, x: Item, kind: Kind, n: nat, into: Item, other: Item)
    requires Valid(s, h) && x !in s && !x.isContainer && into in s && other in s
    requires into.isContainer && other.isContainer && Apart(s, h, into, other)
    requires MayAdd(s[x := Fresh(kind, n)], h[x := 0], into, x)
    ensures var s1, h1 := s[x := Fresh(kind, n)], h[x := 0];
            var s', h' := Add(s1, h1, into, x), Raise(s1, h1, into, x);
            && Valid(s', h') && into in s' && other in s' && Apart(s', h', into, other)
            && Wealth(s', h', into) == Wealth(s, h, into) + kind.worth * n
            && Wealth(s', h', other) == Wealth(s, h, other)
  {
    hide Linked, Coherent, Add, Raise, Up, Wealth, Apart, Since;
    var s1, h1 := s[x := Fresh(kind, n)], h[x := 0];
    var s', h' := Add(s1, h1, into, x), Raise(s1, h1, into, x);
    PutSince(s, h, x, kind, n, into);
    NewWealth(s, h, x, kind, n);
    ApartSince(s, h, s1, h1, {}, into, other);
    AddKeeps(s1, h1, into, x);
    ApartSince(s, h, s', h', {}, into, other);
    AddWealth(s1, h1, into, x);
    UpStarts(s1, h1, into);
    OneGains(s1, h1, s', h', into, kind.worth * n, into, other);
  }

  /** The change that is one new stack. */
  function OneStack(x: Item, kind: Kind, n: nat, fits: bool): Change {
    if fits then Change([x], [Stack(kind.worth, n)], [], []) else Change([], [], [x], [Stack(kind.worth, n)])
  }

  lemma PutLaid(s: World, h: Heights, x: Item, kind: Kind, n: nat, purse: Item, ground: Item, coins: seq<Kind>,
                fits: bool)
    requires Valid(s, h) && x !in s && purse in s && ground in s && purse != ground && kind in coins
    requires var s1, h1, into := s[x := Fresh(kind, n)], h[x := 0], if fits then purse else ground;
             MayAdd(s1, h1, into, x)
    ensures var s1, h1, into := s[x := Fresh(kind, n)], h[x := 0], if fits then purse else ground;
            Laid(s, Add(s1, h1, into, x), purse, ground, coins, {}, OneStack(x, kind, n, fits))
  {
    hide Valid, Add, Up, MayAdd, Remaining;
    var s1, h1, into := s[x := Fresh(kind, n)], h[x := 0], if fits then purse else ground;
    AddShape(s1, h1, into, x);
    forall c | c in s ensures Remaining(s[c].contents, {}) == s[c].contents {
      AllRemain(s[c].contents, {});
    }
  }

  lemma PutAccount(s: World, h: Heights, x: Item, kind: Kind, n: nat, purse: Item, ground: Item, coins: seq<Kind>,
                   fits: bool)
    requires Ready(s, h, purse, ground) && x !in s && !x.isContainer && kind in coins
    requires var s1, h1, into := s[x := Fresh(kind, n)], h[x := 0], if fits then purse else ground;
             MayAdd(s1, h1, into, x) && StacksFit(Add(s1, h1, into, x))
    ensures var s1, h1, into := s[x := Fresh(kind, n)], h[x := 0], if fits then purse else ground;
            Account(s, h, Add(s1, h1, into, x), Raise(s1, h1, into, x), purse, ground, coins, {}, 0,
                    OneStack(x, kind, n, fits))
  {
    hide Valid, Add, Raise, Up, Wealth, Since, StacksFit, MayAdd, Laid, Worth;
    ApartDiffer(s, h, purse, ground);
    PutSince(s, h, x, kind, n, if fits then purse else ground);
    PutWealth(s, h, x, kind, n, if fits then purse else ground, if fits then ground else purse);
    PutLaid(s, h, x, kind, n, purse, ground, coins, fits);
    WorthOfOne(Stack(kind.worth, n));
    EnoughForNothing([]);
  }

  lemma ApartDiffer(s: World, h: Heights, p: Item, q: Item)
    requires Ready(s, h, p, q)
    ensures p != q
  {
    UpStarts(s, h, p);
  }

  // ---------------------------------------------------------------- a stack taken

  lemma TakeSince(s: World, h: Heights, c: Item, x: Item)
    requires Valid(s, h) && c in s && x in s[c].contents && !x.isContainer
    ensures Since(s, Remove(s, h, c, x), {x})
  {
    hide Valid, Remove;
    RemovePlaces(s, h, c, x);
  }

  lemma TakeWealth(s: World, h: Heights, c: Item, x: Item, p: Item, q: Item)
    requires Valid(s, h) && c in s && x in s[c].contents && x in s && !x.isContainer && p in s && q in s
    requires Apart(s, h, p, q) && p in Up(s, h, c)
    ensures Valid(Remove(s, h, c, x), h)
    ensures var s' := Remove(s, h, c, x);
            && p in s' && q in s' && Wealth(s', h, q) == Wealth(s, h, q)
            && Wealth(s', h, p) == Wealth(s, h, p) - s[x].kind.worth * s[x].count
  {
    hide Linked, Ranked, Coherent, Remove, Up, Wealth, Apart;
    RemoveKeeps(s, h, c, x);
    RemoveWealth(s, h, c, x);
    OneGains(s, h, Remove(s, h, c, x), h, c, -(Wealth(s, h, x) as int), p, q);
    LeafWealth(s, h, x);
  }

  lemma TakeLaid(s: World, h: Heights, c: Item, x: Item, purse: Item, ground: Item, coins: seq<Kind>)
    requires Valid(s, h) && c in s && x in s[c].contents && x in s && s[x].parent == c
    ensures Laid(s, Remove(s, h, c, x), purse, ground, coins, {x}, NOTHING)
  {
    hide Ranked, Coherent, Remove, Remaining, Without;
    RemoveShape(s, h, c, x);
    RemainingOne(s[c].contents, x);
    forall a | a in s && a != c ensures Remaining(s[a].contents, {x}) == s[a].contents {
      AllRemain(s[a].contents, {x});
    }
  }

  lemma TakeAccount(s: World, h: Heights, c: Item, x: Item, purse: Item, ground: Item, coins: seq<Kind>)
    requires Ready(s, h, purse, ground) && x in s && !x.isContainer && Inside(s, h, purse, x) && c == s[x].parent
    requires c in s && x in s[c].contents && purse in Up(s, h, c) && StacksFit(Remove(s, h, c, x))
    ensures Account(s, h, Remove(s, h, c, x), h, purse, ground, coins, {x}, s[x].kind.worth * s[x].count, NOTHING)
  {
    hide Linked, Coherent, Remove, Up, Wealth, Apart, Since, StacksFit, Laid, Worth;
    var s' := Remove(s, h, c, x);
    TakeSince(s, h, c, x);
    TakeWealth(s, h, c, x, purse, ground);
    ApartSince(s, h, s', h, {x}, purse, ground);
    TakeLaid(s, h, c, x, purse, ground, coins);
    EnoughForNothing([]);
  }

  lemma HeldAbove(s: World, h: Heights, c: Item, x: Item)
    requires Forest(s, h) && Inside(s, h, c, x)
    ensures s[x].parent in s && x in s[s[x].parent].contents && c in Up(s, h, s[x].parent)
  {
    UpStep(s, h, x);
  }

  lemma LeafWealth(s: World, h: Heights, x: Item)
    requires Forest(s, h) && x in s && !x.isContainer
    ensures Wealth(s, h, x) == s[x].kind.worth * s[x].count
  {
  }

  // ---------------------------------------------------------------- giving money

  /** Creates a stack and puts it into the one container, or if that is full onto the ground. */
  method PutCoins(g: Game, purse: Item, ground: Item, coins: seq<Kind>, kind: Kind, n: nat, noLimit: bool)
    returns (fits: bool, ghost x: Item)
    requires Ready(g.State(), g.heights, purse, ground) && kind in coins && kind.stackable && kind.pickupable
    requires 1 <= n <= 100
    modifies g, g.items
    ensures fresh(g.items - old(g.items))
    ensures fits <==> noLimit || |old(purse.itemlist)| < purse.maxSize
    ensures Account(old(g.State()), old(g.heights), g.State(), g.heights, purse, ground, coins, {}, 0,
                    OneStack(x, kind, n, fits))
  {
    hide Valid, Apart, StacksFit, Add, Raise, Up, Wealth, Gains, Since, Laid, OthersSame, Game.State, Places, AddedTo;
    ghost var s, h := g.State(), g.heights;
    g.InState(purse);
    g.InState(ground);
    g.Cells(purse);
    var item := g.CreateItem(kind, n);
    x := item;
    assert x !in s;
    NewFacts(s, h, x, kind, n, purse);
    NewFacts(s, h, x, kind, n, ground);
    g.Cells(x);
    g.Cells(purse);
    WhereEver(g.State(), purse);
    WhereEver(g.State(), ground);
    LacksRoom(g.State(), purse, x);
    var ret;
    ghost var dest, slot, slots, added;
    ret, dest, slot, slots, added := g.InternalAddItem(purse, item, INDEX_WHEREEVER, noLimit);
    fits := ret == RET_NOERROR;
    if !fits {
      g.InState(x);
      g.InState(ground);
      g.Cells(x);
      ret, dest, slot, slots, added := g.InternalAddItem(ground, item, INDEX_WHEREEVER, true);
    }
    PutSince(s, h, x, kind, n, if fits then purse else ground);
    PutAccount(s, h, x, kind, n, purse, ground, coins, fits);
    g.CellOrNull(null);
  }

  lemma LacksRoom(s: World, c: Item, x: Item)
    requires c in s && x in s && s[x].kind.stackable && s[x].count <= 100
    ensures Lacks(s, c, INDEX_WHEREEVER, x) <==> |s[c].contents| >= c.maxSize
  {
  }

  lemma WhereEver(s: World, c: Item)
    requires c in s
    ensures Destination(s, c, INDEX_WHEREEVER) == (c, INDEX_WHEREEVER) && ItemAt(s, c, INDEX_WHEREEVER) == null
  {
  }

  /** What the coins of some types are worth. */
  function Denominations(coins: seq<Kind>): (ds: seq<nat>)
    ensures |ds| == |coins| && forall i :: 0 <= i < |coins| ==> ds[i] == coins[i].worth
  {
    seq(|coins|, i requires 0 <= i < |coins| => coins[i].worth)
  }

  /** Types of coins, from the least worth to the most. */
  predicate Coinage(coins: seq<Kind>) {
    Ascending(Denominations(coins)) && forall kind :: kind in coins ==> kind.stackable && kind.pickupable
  }

  /** Stacks fall to the ground only if there is a limit, and when the container is full. */
  ghost predicate Fitted(s: World, purse: Item, change: Change, noLimit: bool)
    requires purse in s
  {
    && (noLimit ==> change.fallen == [])
    && (change.fallen != [] ==> |s[purse].contents| >= purse.maxSize)
    && (change.put != [] && !noLimit ==> |s[purse].contents| <= purse.maxSize)
  }

  /** The new stacks, those on the ground last to be made. */
  function Made(change: Change): seq<Stack> {
    change.dropped + change.kept
  }

  /** Puts down new stacks that pay an amount, the largest coins first and at most a hundred in a stack. */
  method AddMoney(g: Game, purse: Item, ground: Item, coins: seq<Kind>, amount: nat, noLimit: bool)
    returns (ghost change: Change)
    requires Ready(g.State(), g.heights, purse, ground) && Coinage(coins)
    modifies g, g.items
    ensures fresh(g.items - old(g.items))
    ensures Pays(Denominations(coins), amount, change.kept, change.dropped) && Neat(Made(change))
    ensures Account(old(g.State()), old(g.heights), g.State(), g.heights, purse, ground, coins, {}, 0, change)
    ensures purse in g.State() && Fitted(g.State(), purse, change, noLimit)
  {
    hide Pays, Paid, Ready, Account, Worth, Ascending, Neat, Fitted, Made, OneStack, Plus, Game.State;
    ghost var s, h, ds := g.State(), g.heights, Denominations(coins);
    var money: nat := amount;
    change := NOTHING;
    var i: nat := |coins|;
    PaidStart(ds, amount);
    AccountStart(s, h, purse, ground, coins);
    ReadyForest(s, h, purse, ground);
    NothingMade(s, purse, noLimit);
    while i > 0
      invariant i <= |coins| && fresh(g.items - old(g.items))
      invariant Paid(ds, amount, i, 0, money, change.kept, change.dropped)
      invariant Account(s, h, g.State(), g.heights, purse, ground, coins, {}, 0, change)
      invariant purse in g.State() && Fitted(g.State(), purse, change, noLimit)
      invariant Neat(Made(change)) && forall y :: y in Made(change) ==> i < |coins| && y.worth >= ds[i]
    {
      PaidNext(ds, amount, i - 1, money, change.kept, change.dropped);
      SmallerNext(ds, i, Made(change));
      i := i - 1;
      var worth := coins[i].worth;
      CoinWorth(coins, i);
      var tmp: nat := money / worth;
      DivMod(money, worth);
      money := money - tmp * worth;
      while tmp > 0
        invariant fresh(g.items - old(g.items)) && Paid(ds, amount, i, tmp, money, change.kept, change.dropped)
        invariant Account(s, h, g.State(), g.heights, purse, ground, coins, {}, 0, change)
        invariant purse in g.State() && Fitted(g.State(), purse, change, noLimit) && Neat(Made(change))
        invariant forall y :: y in Made(change) ==>
                    worth < y.worth || (worth == y.worth && (tmp > 0 ==> y.count == 100))
      {
        var n := if tmp < 100 then tmp else 100;
        ghost var s1, h1, change1 := g.State(), g.heights, change;
        AccountReady(s, h, s1, h1, purse, ground, coins, {}, 0, change1);
        g.InState(purse);
        g.Cells(purse);
        var fits;
        ghost var x;
        fits, x := PutCoins(g, purse, ground, coins, coins[i], n, noLimit);
        PaidStack(ds, amount, i, tmp, n, money, change.kept, change.dropped);
        change := Plus(OneStack(x, coins[i], n, fits), change1);
        StackPut(s, h, s1, h1, g.State(), g.heights, purse, ground, coins, change1, x, coins[i], n, fits, noLimit);
        tmp := tmp - n;
      }
    }
    PaidEnd(ds, amount, money, change.kept, change.dropped);
  }

  lemma NothingMade(s: World, purse: Item, noLimit: bool)
    requires purse in s
    ensures Fitted(s, purse, NOTHING, noLimit) && Made(NOTHING) == [] && Neat([]) && Worth([]) == 0
  {
  }

  /** One more stack, in addition to what has been put down so far. */
  lemma AccountNext(s: World, h: Heights, s1: World, h1: Heights, s2: World, h2: Heights, purse: Item, ground: Item,
                    coins: seq<Kind>, change: Change, change': Change)
    requires Account(s, h, s1, h1, purse, ground, coins, {}, 0, change)
    requires Account(s1, h1, s2, h2, purse, ground, coins, {}, 0, change')
    ensures Account(s, h, s2, h2, purse, ground, coins, {}, 0, Plus(change', change))
  {
    hide Account;
    var none: set<Item> := {};
    assert none + none == none;
    AccountChain(s, h, s1, h1, s2, h2, purse, ground, coins, none, 0, change, none, 0, change');
  }

  /** All that is to be known of one more stack. */
  lemma StackPut(s: World, h: Heights, s1: World, h1: Heights, s2: World, h2: Heights, purse: Item, ground: Item,
                 coins: seq<Kind>, change: Change, x: Item, kind: Kind, n: nat, fits: bool, noLimit: bool)
    requires Account(s, h, s1, h1, purse, ground, coins, {}, 0, change)
    requires Account(s1, h1, s2, h2, purse, ground, coins, {}, 0, OneStack(x, kind, n, fits))
    requires purse in s1 && Fitted(s1, purse, change, noLimit) && Neat(Made(change))
    requires fits <==> noLimit || |s1[purse].contents| < purse.maxSize
    requires forall y :: y in Made(change) ==> kind.worth < y.worth || (kind.worth == y.worth && y.count == 100)
    ensures var y, change' := Stack(kind.worth, n), Plus(OneStack(x, kind, n, fits), change);
            && Account(s, h, s2, h2, purse, ground, coins, {}, 0, change')
            && purse in s2 && Fitted(s2, purse, change', noLimit)
            && Made(change') == [y] + Made(change) && Neat(Made(change'))
            && change'.kept == (if fits then [y] + change.kept else change.kept)
            && change'.dropped == (if fits then change.dropped else [y] + change.dropped)
  {
    hide Account, Fitted, Neat, Made, OneStack, Plus;
    AccountReady(s, h, s1, h1, purse, ground, coins, {}, 0, change);
    OneMoreStack(x, kind, n, fits, change);
    AccountNext(s, h, s1, h1, s2, h2, purse, ground, coins, change, OneStack(x, kind, n, fits));
    FittedNext(s1, h1, s2, h2, purse, ground, coins, change, x, kind, n, fits, noLimit);
    NeatNext(Stack(kind.worth, n), change, x, kind, n, fits);
  }

  lemma OneMoreStack(x: Item, kind: Kind, n: nat, fits: bool, change: Change)
    ensures var y, change' := Stack(kind.worth, n), Plus(OneStack(x, kind, n, fits), change);
            && change'.kept == (if fits then [y] + change.kept else change.kept)
            && change'.dropped == (if fits then change.dropped else [y] + change.dropped)
  {
  }

  lemma FittedNext(s: World, h: Heights, s': World, h': Heights, purse: Item, ground: Item, coins: seq<Kind>,
                   change: Change, x: Item, kind: Kind, n: nat, fits: bool, noLimit: bool)
    requires Account(s, h, s', h', purse, ground, coins, {}, 0, OneStack(x, kind, n, fits))
    requires purse in s && Fitted(s, purse, change, noLimit) && |change.dropped| == |change.fallen|
    requires fits <==> noLimit || |s[purse].contents| < purse.maxSize
    ensures purse in s' && Fitted(s', purse, Plus(OneStack(x, kind, n, fits), change), noLimit)
    ensures fits ==> change.dropped == []
  {
    hide Ready, Since, Coined, Wealth, Worth, Remaining;
    AllRemain(s[purse].contents, {});
    ReadyForest(s, h, purse, ground);
  }

  lemma NeatNext(y: Stack, change: Change, x: Item, kind: Kind, n: nat, fits: bool)
    requires Neat(Made(change)) && y == Stack(kind.worth, n) && (fits ==> change.dropped == [])
    requires forall z :: z in Made(change) ==> y.worth < z.worth || (y.worth == z.worth && z.count == 100)
    ensures var made := Made(Plus(OneStack(x, kind, n, fits), change));
            Neat(made) && made == [y] + Made(change)
  {
    NeatFront(y, Made(change));
    assert Made(Plus(OneStack(x, kind, n, fits), change)) == [y] + Made(change);
  }

  lemma CoinWorth(coins: seq<Kind>, i: nat)
    requires Coinage(coins) && i < |coins|
    ensures Denominations(coins)[i] == coins[i].worth > 0 && coins[i].stackable && coins[i].pickupable
  {
  }

  lemma AccountReady(s: World, h: Heights, s': World, h': Heights, purse: Item, ground: Item, coins: seq<Kind>,
                     taken: set<Item>, paid: int, change: Change)
    requires Account(s, h, s', h', purse, ground, coins, taken, paid, change)
    ensures Ready(s, h, purse, ground) && Ready(s', h', purse, ground) && purse in s'
    ensures |change.put| == |change.kept| && |change.fallen| == |change.dropped|
  {
  }

  // ---------------------------------------------------------------- all the money there is

  /** A stack, and what it is worth. */
  datatype Entry = Entry(worth: nat, item: Item)

  /** Adds an entry behind all that are worth no more. */
  function Enter(m: seq<Entry>, e: Entry): seq<Entry> {
    if m == [] || e.worth < m[0].worth then [e] + m else [m[0]] + Enter(m[1..], e)
  }

  function Stacks(m: seq<Entry>): (r: seq<Stack>)
    ensures |r| == |m| && forall i :: 0 <= i < |m| ==> r[i] == Stack(m[i].worth, 1)
  {
    if m == [] then [] else [Stack(m[0].worth, 1)] + Stacks(m[1..])
  }

  function Items(m: seq<Entry>): (r: seq<Item>)
    ensures |r| == |m| && forall i :: 0 <= i < |m| ==> r[i] == m[i].item
  {
    if m == [] then [] else [m[0].item] + Items(m[1..])
  }

  /** The map of stacks keeps stacks of the same worth in the order in which they are met. */
  lemma {:induction false} EntersBehind(m: seq<Entry>, e: Entry) returns (k: nat)
    ensures k <= |m| && Enter(m, e) == m[..k] + [e] + m[k..]
    ensures forall i :: 0 <= i < k ==> m[i].worth <= e.worth
    ensures k < |m| ==> e.worth < m[k].worth
  {
    if m == [] || e.worth < m[0].worth {
      k := 0;
    } else {
      k := EntersBehind(m[1..], e);
      k := k + 1;
      assert m == [m[0]] + m[1..];
    }
  }

  lemma {:induction false} EnterIsInsert(m: seq<Entry>, e: Entry)
    ensures Stacks(Enter(m, e)) == Insert(Stacks(m), Stack(e.worth, 1))
    ensures forall x :: CountOf(Items(Enter(m, e)), x) == CountOf(Items(m), x) + if x == e.item then 1 else 0
    ensures forall e' :: e' in Enter(m, e) ==> e' == e || e' in m
  {
    if m == [] || e.worth < m[0].worth {
      EntryFront(e, m);
    } else {
      EnterIsInsert(m[1..], e);
      EntryFront(m[0], Enter(m[1..], e));
    }
  }

  lemma EntryFront(e: Entry, m: seq<Entry>)
    ensures Stacks([e] + m) == [Stack(e.worth, 1)] + Stacks(m)
    ensures Items([e] + m) == [e.item] + Items(m)
    ensures forall x :: CountOf(Items([e] + m), x) == CountOf(Items(m), x) + if x == e.item then 1 else 0
  {
    assert ([e] + m)[1..] == m;
  }

  ghost predicate IsMoney(s: World, x: Item)
    requires x in s
  {
    !x.isContainer && s[x].kind.worth * s[x].count > 0
  }

  /** The entries are stacks that are worth what they say, in the order of their worth. */
  ghost predicate Entries(s: World, m: seq<Entry>) {
    && (forall e :: e in m ==> e.item in s && IsMoney(s, e.item) && e.worth == s[e.item].kind.worth * s[e.item].count)
    && InOrder(Stacks(m))
  }

  /** All money in `c` is met once: it is entered, in one of the containers in line, or in or among what is ahead. */
  ghost predicate Met(s: World, h: Heights, c: Item, m: seq<Entry>, line: seq<Item>, xs: seq<Item>)
    requires Ranked(s, h)
  {
    forall x :: x in s && IsMoney(s, x) ==>
        CountOf(Items(m), x) + Insides(s, h, line, x) + Hits(xs, Up(s, h, x)) == if Inside(s, h, c, x) then 1 else 0
  }

  /** It is worth as much as the container. */
  ghost predicate Adds(s: World, h: Heights, c: Item, m: seq<Entry>, line: seq<Item>, xs: seq<Item>)
    requires Forest(s, h)
  {
    && c in s && In(s, line) && In(s, xs)
    && Worth(Stacks(m)) + Wealths(s, h, line) + Wealths(s, h, xs) == Wealth(s, h, c)
  }

  ghost predicate Gathered(s: World, h: Heights, c: Item, m: seq<Entry>, line: seq<Item>, xs: seq<Item>) {
    && Forest(s, h) && Entries(s, m) && Met(s, h, c, m, line, xs) && Adds(s, h, c, m, line, xs)
    && forall y :: y in line ==> y.isContainer
  }

  lemma GatherStart(s: World, h: Heights, c: Item)
    requires Forest(s, h) && c in s && c.isContainer
    ensures Gathered(s, h, c, [], [], s[c].contents)
  {
    ContentsIn(s, h, c);
    WealthIs(s, h, c, s[c].contents);
    forall x | x in s && IsMoney(s, x) ensures Hits(s[c].contents, Up(s, h, x)) == if Inside(s, h, c, x) then 1 else 0 {
      InsideOnce(s, h, c, x);
    }
    hide Linked, Ranked, Inside, Up;
  }

  /** The next container in line is opened. */
  lemma GatherNext(s: World, h: Heights, c: Item, m: seq<Entry>, line: seq<Item>)
    requires Gathered(s, h, c, m, line, []) && line != []
    ensures line[0] in s && Gathered(s, h, c, m, line[1..], s[line[0]].contents)
  {
    hide Linked, Ranked, Inside, Up, Wealth, Wealths, Sizes, Entries, Worth, CountOf, Items, Stacks, IsMoney;
    FirstInLine(s, h, line);
    Nothing(s, h);
    forall x | x in s && IsMoney(s, x)
      ensures CountOf(Items(m), x) + Insides(s, h, line[1..], x) + Hits(s[line[0]].contents, Up(s, h, x))
              == if Inside(s, h, c, x) then 1 else 0
    {
      InsideOnce(s, h, line[0], x);
      NoneInside(s, h, x);
    }
  }

  /** How many places one more item takes on the way up from `x`. */
  lemma {:induction false} HitsFront(s: World, h: Heights, y: Item, xs: seq<Item>, x: Item)
    requires Forest(s, h) && y in s && x in s && IsMoney(s, x)
    ensures Hits([y] + xs, Up(s, h, x)) == (if y == x || Inside(s, h, y, x) then 1 else 0) + Hits(xs, Up(s, h, x))
    ensures !y.isContainer ==> !Inside(s, h, y, x)
  {
    UpStarts(s, h, x);
    assert ([y] + xs)[1..] == xs;
    if !y.isContainer && Inside(s, h, y, x) {
      var z := LastStep(s, h, y, x);
    }
  }

  lemma InsidesLast(s: World, h: Heights, line: seq<Item>, y: Item, x: Item)
    requires Ranked(s, h)
    ensures Insides(s, h, line + [y], x) == Insides(s, h, line, x) + if Inside(s, h, y, x) then 1 else 0
  {
    InsidesConcat(s, h, line, [y], x);
    assert Insides(s, h, [y][1..], x) == 0;
  }

  lemma WealthsFront(s: World, h: Heights, y: Item, xs: seq<Item>)
    requires Forest(s, h) && In(s, [y] + xs)
    ensures y in s && In(s, xs) && Wealths(s, h, [y] + xs) == Wealth(s, h, y) + Wealths(s, h, xs)
    ensures Sizes(s, h, [y] + xs) == Size(s, h, y) + Sizes(s, h, xs)
  {
    assert y in [y] + xs && forall x :: x in xs ==> x in [y] + xs;
    assert ([y] + xs)[1..] == xs;
  }

  /** One more item is looked at. */
  lemma MetStep(s: World, h: Heights, c: Item, m: seq<Entry>, line: seq<Item>, y: Item, xs: seq<Item>, e: Entry)
    requires Forest(s, h) && y in s && Met(s, h, c, m, line, [y] + xs) && e.item == y
    ensures if y.isContainer then Met(s, h, c, m, line + [y], xs)
            else if IsMoney(s, y) then Met(s, h, c, Enter(m, e), line, xs)
            else Met(s, h, c, m, line, xs)
  {
    hide Linked, Ranked, Inside, Up, Hits, CountOf, Insides, Enter, Items, Stacks;
    EnterIsInsert(m, e);
    forall x | x in s && IsMoney(s, x)
      ensures CountOf(Items(if !y.isContainer && IsMoney(s, y) then Enter(m, e) else m), x)
              + Insides(s, h, if y.isContainer then line + [y] else line, x) + Hits(xs, Up(s, h, x))
              == if Inside(s, h, c, x) then 1 else 0
    {
      HitsFront(s, h, y, xs, x);
      InsidesLast(s, h, line, y, x);
      NotInItself(s, h, y);
    }
  }

  lemma NotInItself(s: World, h: Heights, y: Item)
    requires Ranked(s, h)
    ensures !Inside(s, h, y, y)
  {
  }

  lemma AddsStep(s: World, h: Heights, c: Item, m: seq<Entry>, line: seq<Item>, y: Item, xs: seq<Item>, e: Entry)
    requires Forest(s, h) && Entries(s, m) && Adds(s, h, c, m, line, [y] + xs) && e.item == y
    requires y in s && e.worth == s[y].kind.worth * s[y].count
    ensures if y.isContainer then Adds(s, h, c, m, line + [y], xs)
            else if e.worth > 0 then Adds(s, h, c, Enter(m, e), line, xs) && Entries(s, Enter(m, e))
            else Adds(s, h, c, m, line, xs)
    ensures y.isContainer ==> Sizes(s, h, line + [y]) == Sizes(s, h, line) + Size(s, h, y)
    ensures In(s, xs) && Sizes(s, h, [y] + xs) == Sizes(s, h, xs) + Size(s, h, y)
  {
    hide Linked, Ranked, Wealth, Wealths, Worth, Size, Sizes, Enter, InOrder, Stacks;
    WealthsFront(s, h, y, xs);
    OneMore(s, h, line, y);
    EnterIsInsert(m, e);
    InsertIsFair(Stacks(m), Stack(e.worth, 1));
    InsertKeepsOrder(Stacks(m), Stack(e.worth, 1));
  }

  // ---------------------------------------------------------------- in which order

  /** The entries for money among some items, in the order in which these are met. */
  function Entered(s: World, m: seq<Entry>, xs: seq<Item>): seq<Entry>
    requires In(s, xs)
    decreases |xs|
  {
    if xs == [] then m
    else
      var worth := s[xs[0]].kind.worth * s[xs[0]].count;
      Entered(s, if !xs[0].isContainer && worth > 0 then Enter(m, Entry(worth, xs[0])) else m, xs[1..])
  }

  /** What is ahead completes the entries. */
  ghost predicate OnCourse(s: World, h: Heights, m: seq<Entry>, line: seq<Item>, xs: seq<Item>, goal: seq<Entry>) {
    && Forest(s, h) && In(s, line) && In(s, xs) && In(s, Ahead(s, h, xs, Bags(s, line)))
    && Entered(s, m, Ahead(s, h, xs, Bags(s, line))) == goal
  }

  lemma EnteredFirst(s: World, m: seq<Entry>, y: Item, xs: seq<Item>)
    requires In(s, [y] + xs)
    ensures y in s && In(s, xs)
    ensures var worth := s[y].kind.worth * s[y].count;
            Entered(s, m, [y] + xs)
            == Entered(s, if !y.isContainer && worth > 0 then Enter(m, Entry(worth, y)) else m, xs)
  {
    assert y in [y] + xs && forall x :: x in xs ==> x in [y] + xs;
    assert ([y] + xs)[1..] == xs;
  }

  lemma CourseStep(s: World, h: Heights, m: seq<Entry>, line: seq<Item>, y: Item, xs: seq<Item>, goal: seq<Entry>)
    requires OnCourse(s, h, m, line, [y] + xs, goal)
    ensures y in s
    ensures var worth := s[y].kind.worth * s[y].count;
            if y.isContainer then OnCourse(s, h, m, line + [y], xs, goal)
            else if worth > 0 then OnCourse(s, h, Enter(m, Entry(worth, y)), line, xs, goal)
            else OnCourse(s, h, m, line, xs, goal)
  {
    hide Forest, Ahead, Bags, Entered, Enter;
    var q := Bags(s, line);
    assert y in [y] + xs && forall x :: x in xs ==> x in [y] + xs;
    AheadStep(s, h, y, xs, q);
    BagsOfOne(s, h, y);
    EnteredFirst(s, m, y, Ahead(s, h, xs, q + Bags(s, [y])));
    if y.isContainer {
      BagsConcat(s, line, [y]);
    } else {
      LeafEmpty(s, h, y);
      assert q + Bags(s, [y]) == q;
    }
  }

  lemma LeafEmpty(s: World, h: Heights, y: Item)
    requires Forest(s, h) && y in s && !y.isContainer
    ensures s[y].contents == []
  {
  }

  lemma CourseNext(s: World, h: Heights, m: seq<Entry>, line: seq<Item>, goal: seq<Entry>)
    requires OnCourse(s, h, m, line, [], goal) && line != [] && line[0].isContainer
    ensures line[0] in s && OnCourse(s, h, m, line[1..], s[line[0]].contents, goal)
  {
    hide Linked, Ranked, Walk, Bags, Entered;
    var c, rest := line[0], line[1..];
    ContentsIn(s, h, c);
    assert line == [c] + rest;
    BagsConcat(s, [c], rest);
    BagsOfOne(s, h, c);
    AheadNothing(s, h, Bags(s, line));
    if s[c].contents != [] {
      assert Bags(s, line)[0] == c && Bags(s, line)[1..] == Bags(s, rest);
      WalkFirst(s, h, Bags(s, line));
    } else {
      assert Bags(s, line) == Bags(s, rest);
    }
  }

  lemma CourseStart(s: World, h: Heights, c: Item)
    requires Forest(s, h) && c in s && c.isContainer
    ensures In(s, s[c].contents) && In(s, s[c].contents + ByLevels(s, h, s[c].contents))
    ensures OnCourse(s, h, [], [], s[c].contents, Entered(s, [], s[c].contents + ByLevels(s, h, s[c].contents)))
  {
    ContentsIn(s, h, c);
    hide Linked, Ranked, Walk, ByLevels, Entered, Sizes;
    var xs := s[c].contents;
    WalkIsByLevels(s, h, [], xs);
    None(s, h);
    assert [] + Bags(s, xs) == Bags(s, xs) && xs + [] == xs;
    WalkIn(s, h, Bags(s, xs));
    assert [] + ByLevels(s, h, xs) == ByLevels(s, h, xs);
  }

  lemma CourseEnd(s: World, h: Heights, m: seq<Entry>, goal: seq<Entry>)
    requires OnCourse(s, h, m, [], [], goal)
    ensures m == goal
  {
    AheadNothing(s, h, Bags(s, []));
  }

  /** Enters what is worth something, putting containers in line. */
  method CollectThings(c: Item, m: seq<Entry>, count: nat, line: seq<Item>, xs: seq<Item>, ghost s: World,
                       ghost h: Heights, ghost goal: seq<Entry>)
    returns (m': seq<Entry>, count': nat, line': seq<Item>)
    requires Represents(s) && Gathered(s, h, c, m, line, xs) && count == Worth(Stacks(m))
    requires OnCourse(s, h, m, line, xs, goal)
    ensures Gathered(s, h, c, m', line', []) && count' == Worth(Stacks(m'))
    ensures Sizes(s, h, line') <= Sizes(s, h, line) + Sizes(s, h, xs)
    ensures OnCourse(s, h, m', line', [], goal)
  {
    hide Linked, Ranked, Met, Entries, Size, Sizes, Wealth, Wealths, Worth, Enter, Stacks, OnCourse;
    m', count', line' := m, count, line;
    assert xs[0..] == xs;
    for i := 0 to |xs|
      invariant Gathered(s, h, c, m', line', xs[i..]) && count' == Worth(Stacks(m'))
      invariant OnCourse(s, h, m', line', xs[i..], goal)
      invariant Sizes(s, h, line') + Sizes(s, h, xs[i..]) <= Sizes(s, h, line) + Sizes(s, h, xs)
    {
      var item := xs[i];
      assert xs[i..] == [item] + xs[i + 1..];
      var worth := item.kind.worth * item.count;
      MetStep(s, h, c, m', line', item, xs[i + 1..], Entry(worth, item));
      AddsStep(s, h, c, m', line', item, xs[i + 1..], Entry(worth, item));
      CourseStep(s, h, m', line', item, xs[i + 1..], goal);
      if item.isContainer {
        line' := line' + [item];
      } else if worth > 0 {
        EnterIsInsert(m', Entry(worth, item));
        InsertIsFair(Stacks(m'), Stack(worth, 1));
        count' := count' + worth;
        m' := Enter(m', Entry(worth, item));
      }
    }
  }

  /** Entries of all the money in a container, at any depth: each stack once, in the order of their worth. */
  ghost predicate AllMoney(s: World, h: Heights, c: Item, m: seq<Entry>)
    requires Forest(s, h) && c in s
  {
    && Entries(s, m) && Distinct(Items(m)) && Worth(Stacks(m)) == Wealth(s, h, c)
    && (forall x :: x in Items(m) ==> x in s && Inside(s, h, c, x))
    && (forall x :: x in s && IsMoney(s, x) && Inside(s, h, c, x) ==> x in Items(m))
  }

  lemma NoneInside(s: World, h: Heights, x: Item)
    requires Ranked(s, h) && x in s
    ensures Insides(s, h, [], x) == 0 && Hits([], Up(s, h, x)) == 0
  {
  }

  lemma ItemsEntered(s: World, m: seq<Entry>, x: Item)
    requires Entries(s, m) && x in Items(m)
    ensures x in s && IsMoney(s, x)
  {
    hide InOrder, Items, IsMoney;
    var i :| 0 <= i < |m| && Items(m)[i] == x;
    assert m[i] in m;
  }

  lemma GatherEnd(s: World, h: Heights, c: Item, m: seq<Entry>)
    requires Gathered(s, h, c, m, [], [])
    ensures c in s && AllMoney(s, h, c, m)
  {
    hide Linked, Ranked, Wealth, Up, Inside, Insides, IsMoney, CountOf, InOrder, Worth, Stacks, Distinct, Items;
    Nothing(s, h);
    forall x | x in s && IsMoney(s, x) ensures CountOf(Items(m), x) == if Inside(s, h, c, x) then 1 else 0 {
      NoneInside(s, h, x);
    }
    forall x ensures x in Items(m) <==> x in s && IsMoney(s, x) && Inside(s, h, c, x) {
      CountedIn(Items(m), x);
      if x in Items(m) {
        ItemsEntered(s, m, x);
      }
    }
    OnceEach(Items(m), set x | x in Items(m));
  }

  /** Stacks of the same worth are taken level by level: those that lie on top before those in bags. */
  ghost predicate LevelByLevel(s: World, h: Heights, c: Item, m: seq<Entry>)
    requires Forest(s, h) && c in s
  {
    && In(s, s[c].contents) && In(s, s[c].contents + ByLevels(s, h, s[c].contents))
    && m == Entered(s, [], s[c].contents + ByLevels(s, h, s[c].contents))
  }

  /** The items that are entered with some worth, in their order. */
  function Worthy(m: seq<Entry>, worth: nat): seq<Item> {
    if m == [] then [] else (if m[0].worth == worth then [m[0].item] else []) + Worthy(m[1..], worth)
  }

  /** The stacks among some items that are worth so much, in their order. */
  function StacksWorth(s: World, xs: seq<Item>, worth: nat): seq<Item>
    requires In(s, xs)
  {
    if xs == [] then []
    else
      (if !xs[0].isContainer && s[xs[0]].kind.worth * s[xs[0]].count == worth then [xs[0]] else [])
      + StacksWorth(s, xs[1..], worth)
  }

  predicate Rising(m: seq<Entry>) {
    forall i, j :: 0 <= i < j < |m| ==> m[i].worth <= m[j].worth
  }

  lemma {:induction false} EnterLast(m: seq<Entry>, e: Entry, worth: nat)
    requires Rising(m)
    ensures Rising(Enter(m, e))
    ensures Worthy(Enter(m, e), worth) == Worthy(m, worth) + if e.worth == worth then [e.item] else []
  {
    if m == [] || e.worth < m[0].worth {
      assert ([e] + m)[1..] == m;
      if e.worth == worth {
        NoneWorth(m, worth);
      }
    } else {
      EnterLast(m[1..], e, worth);
      var rest := Enter(m[1..], e);
      assert ([m[0]] + rest)[1..] == rest;
      EnterKeeps(m[1..], e);
    }
  }

  lemma {:induction false} EnterKeeps(m: seq<Entry>, e: Entry)
    ensures forall e' :: e' in Enter(m, e) ==> e' == e || e' in m
  {
    if m != [] && e.worth >= m[0].worth {
      EnterKeeps(m[1..], e);
    }
  }

  lemma {:induction false} NoneWorth(m: seq<Entry>, worth: nat)
    requires forall e :: e in m ==> e.worth != worth
    ensures Worthy(m, worth) == []
  {
    if m != [] {
      NoneWorth(m[1..], worth);
    }
  }

  lemma EnteredOne(s: World, m: seq<Entry>, xs: seq<Item>, worth: nat) returns (m': seq<Entry>, one: seq<Item>)
    requires In(s, xs) && Rising(m) && worth > 0 && xs != []
    ensures In(s, xs[1..]) && Rising(m') && Entered(s, m, xs) == Entered(s, m', xs[1..])
    ensures Worthy(m', worth) == Worthy(m, worth) + one
    ensures StacksWorth(s, xs, worth) == one + StacksWorth(s, xs[1..], worth)
  {
    hide Enter, Rising, Worthy;
    var w := s[xs[0]].kind.worth * s[xs[0]].count;
    m', one := m, [];
    if !xs[0].isContainer && w > 0 {
      EnterLast(m, Entry(w, xs[0]), worth);
      m', one := Enter(m, Entry(w, xs[0])), if w == worth then [xs[0]] else [];
    }
  }

  lemma {:induction false} EnteredInOrder(s: World, m: seq<Entry>, xs: seq<Item>, worth: nat)
    requires In(s, xs) && Rising(m) && worth > 0
    ensures Rising(Entered(s, m, xs))
    ensures Worthy(Entered(s, m, xs), worth) == Worthy(m, worth) + StacksWorth(s, xs, worth)
    decreases |xs|
  {
    hide Rising, Worthy;
    if xs != [] {
      hide Entered, StacksWorth;
      var m', one := EnteredOne(s, m, xs, worth);
      EnteredInOrder(s, m', xs[1..], worth);
    }
  }

  /** Among stacks of the same worth those on top come first, then those in bags, then those in bags in bags. */
  lemma TopComesFirst(s: World, h: Heights, c: Item, m: seq<Entry>, worth: nat)
    requires Forest(s, h) && c in s && LevelByLevel(s, h, c, m) && worth > 0
    ensures In(s, s[c].contents + ByLevels(s, h, s[c].contents))
    ensures Worthy(m, worth) == StacksWorth(s, s[c].contents + ByLevels(s, h, s[c].contents), worth)
  {
    hide Linked, Ranked, ByLevels, Entered;
    EnteredInOrder(s, [], s[c].contents + ByLevels(s, h, s[c].contents), worth);
  }

  lemma NoEntries()
    ensures Worth(Stacks([])) == 0
  {
  }

  method CollectMoney(cylinder: Item, ghost s: World, ghost h: Heights)
    returns (moneyMap: seq<Entry>, moneyCount: nat)
    requires Represents(s) && Forest(s, h) && cylinder in s && cylinder.isContainer
    ensures AllMoney(s, h, cylinder, moneyMap) && moneyCount == Wealth(s, h, cylinder)
    ensures LevelByLevel(s, h, cylinder, moneyMap)
  {
    hide Linked, Ranked, Met, Entries, Size, Sizes, Wealth, Wealths, Worth, Stacks, OnCourse, ByLevels;
    var listContainer;
    GatherStart(s, h, cylinder);
    NoEntries();
    CourseStart(s, h, cylinder);
    ghost var goal := Entered(s, [], s[cylinder].contents + ByLevels(s, h, s[cylinder].contents));
    moneyMap, moneyCount, listContainer := CollectThings(cylinder, [], 0, [], cylinder.itemlist, s, h, goal);
    while listContainer != []
      invariant OnCourse(s, h, moneyMap, listContainer, [], goal)
      invariant Gathered(s, h, cylinder, moneyMap, listContainer, []) && moneyCount == Worth(Stacks(moneyMap))
      decreases Sizes(s, h, listContainer)
    {
      var container := listContainer[0];
      FirstInLine(s, h, listContainer);
      GatherNext(s, h, cylinder, moneyMap, listContainer);
      CourseNext(s, h, moneyMap, listContainer, goal);
      moneyMap, moneyCount, listContainer :=
        CollectThings(cylinder, moneyMap, moneyCount, listContainer[1..], container.itemlist, s, h, goal);
    }
    GatherEnd(s, h, cylinder, moneyMap);
    CourseEnd(s, h, moneyMap, goal);
  }

  // ---------------------------------------------------------------- paying

  /** A stack that can be taken, for what it says it is worth. */
  ghost predicate Takeable(s: World, h: Heights, purse: Item, e: Entry)
    requires Ranked(s, h)
  {
    && e.item in s && IsMoney(s, e.item) && Inside(s, h, purse, e.item)
    && e.worth == s[e.item].kind.worth * s[e.item].count
  }

  /** Takes one stack out of the game. */
  method TakeStack(g: Game, purse: Item, ground: Item, e: Entry, ghost coins: seq<Kind>)
    requires Ready(g.State(), g.heights, purse, ground) && Takeable(g.State(), g.heights, purse, e)
    modifies g.items
    ensures g.items == old(g.items)
    ensures Account(old(g.State()), old(g.heights), g.State(), g.heights, purse, ground, coins, {e.item}, e.worth,
                    NOTHING)
  {
    hide Linked, Coherent, Apart, StacksFit, Up, Wealth, Gains, Since, Remove, Laid, Game.State;
    ghost var s, h := g.State(), g.heights;
    var x := e.item;
    HeldAbove(s, h, purse, x);
    g.InState(x);
    g.Cells(x);
    var ret;
    ghost var slots;
    ret, slots := g.InternalRemoveItem(x, -1, true);
    TakeAccount(s, h, s[x].parent, x, purse, ground, coins);
  }

  /** Takes one stack, and gives change if it is worth more than what is left to pay. */
  method PayWith(g: Game, purse: Item, ground: Item, coins: seq<Kind>, e: Entry, left: nat, noLimit: bool)
    returns (left': nat, ghost change: Change)
    requires Ready(g.State(), g.heights, purse, ground) && Takeable(g.State(), g.heights, purse, e)
    requires Coinage(coins) && left > 0
    modifies g, g.items
    ensures fresh(g.items - old(g.items))
    ensures Account(old(g.State()), old(g.heights), g.State(), g.heights, purse, ground, coins, {e.item}, e.worth,
                    change)
    ensures if e.worth >= left
            then left' == 0 && Pays(Denominations(coins), e.worth - left, change.kept, change.dropped)
            else left' == left - e.worth && change == NOTHING
    ensures purse in g.State() && Fitted(g.State(), purse, change, noLimit) && Neat(Made(change))
  {
    hide Ready, Takeable, Account, Pays, Worth, Ascending, Fitted, Neat, Made, Game.State;
    ghost var s, h := g.State(), g.heights;
    change := NOTHING;
    TakeStack(g, purse, ground, e, coins);
    ghost var s1, h1 := g.State(), g.heights;
    AccountReady(s, h, s1, h1, purse, ground, coins, {e.item}, e.worth, NOTHING);
    NothingMade(s1, purse, noLimit);
    if e.worth > left {
      change := AddMoney(g, purse, ground, coins, e.worth - left, noLimit);
      AccountChain(s, h, s1, h1, g.State(), g.heights, purse, ground, coins, {e.item}, e.worth, NOTHING, {}, 0, change);
      assert {e.item} + {} == {e.item} && Plus(change, NOTHING) == change;
      left' := 0;
    } else {
      NothingPaid(Denominations(coins));
      left' := left - e.worth;
    }
  }

  ghost function Taken(m: seq<Entry>, n: nat): set<Item>
    requires n <= |m|
  {
    if n == 0 then {} else Taken(m, n - 1) + {m[n - 1].item}
  }

  lemma {:induction false} TakenNext(m: seq<Entry>, n: nat, i: nat)
    requires Distinct(Items(m)) && n <= i < |m|
    ensures m[i].item !in Taken(m, n)
  {
    hide Items;
    if n > 0 {
      TakenNext(m, n - 1, i);
      assert Items(m)[n - 1] == m[n - 1].item && Items(m)[i] == m[i].item;
    }
  }

  /** Whatever is in the list can be taken, once. */
  lemma ListedTakeable(s: World, h: Heights, purse: Item, m: seq<Entry>, i: nat)
    requires Forest(s, h) && purse in s && AllMoney(s, h, purse, m) && i < |m|
    ensures Takeable(s, h, purse, m[i]) && m[i].item in s && m[i].item !in Taken(m, i)
    ensures Taken(m, i + 1) == Taken(m, i) + {m[i].item}
  {
    hide Linked, Ranked, Wealth, Inside, Items, InOrder, Distinct, IsMoney, Worth, Stacks;
    assert Items(m)[i] == m[i].item && m[i].item in Items(m) && m[i] in m;
    TakenNext(m, i, i);
  }

  /** What has not been taken yet can still be. */
  lemma StillTakeable(s: World, h: Heights, s': World, h': Heights, purse: Item, ground: Item, taken: set<Item>,
                      e: Entry, coins: seq<Kind>, paid: int, change: Change)
    requires Account(s, h, s', h', purse, ground, coins, taken, paid, change)
    requires Takeable(s, h, purse, e) && e.item !in taken
    ensures Takeable(s', h', purse, e)
  {
    hide Linked, Ranked, Coherent, Wealth, Apart, StacksFit, Up, Laid;
    UpSince(s, h, s', h', taken, e.item);
  }

  /** Takes stacks in the given order until an amount is paid, and gives change. */
  method TakeMoney(g: Game, purse: Item, ground: Item, coins: seq<Kind>, moneyMap: seq<Entry>, amount: nat,
                   noLimit: bool)
    returns (left: nat, ghost change: Change)
    requires Ready(g.State(), g.heights, purse, ground) && Coinage(coins)
    requires AllMoney(g.State(), g.heights, purse, moneyMap)
    modifies g, g.items
    ensures fresh(g.items - old(g.items))
    ensures left == 0 <==> amount <= Worth(Stacks(moneyMap))
    ensures var n := Enough(Stacks(moneyMap), amount);
            && Account(old(g.State()), old(g.heights), g.State(), g.heights, purse, ground, coins, Taken(moneyMap, n),
                       Worth(Stacks(moneyMap)[..n]), change)
            && if left == 0
               then
                 && Worth(Stacks(moneyMap)[..n]) >= amount
                 && Pays(Denominations(coins), Worth(Stacks(moneyMap)[..n]) - amount, change.kept, change.dropped)
               else change == NOTHING
    ensures purse in g.State() && Fitted(g.State(), purse, change, noLimit) && Neat(Made(change))
  {
    hide Ready, AllMoney, Takeable, Account, Pays, Worth, Enough, Midway, Ascending, Stacks, Taken, Game.State, Forest;
    hide Fitted, Neat, Made;
    ReadyForest(g.State(), g.heights, purse, ground);
    ghost var s, h, ds, m := g.State(), g.heights, Denominations(coins), Stacks(moneyMap);
    left := amount;
    change := NOTHING;
    var i := 0;
    AccountStart(s, h, purse, ground, coins);
    MidwayStart(ds, m, amount);
    NoneTaken(moneyMap);
    NothingMade(s, purse, noLimit);
    while i < |moneyMap| && left > 0
      invariant i <= |moneyMap| && fresh(g.items - old(g.items))
      invariant Account(s, h, g.State(), g.heights, purse, ground, coins, Taken(moneyMap, i), Worth(m[..i]), change)
      invariant Midway(ds, m, amount, i, left, change.kept, change.dropped)
      invariant left > 0 ==> change == NOTHING
      invariant purse in g.State() && Fitted(g.State(), purse, change, noLimit) && Neat(Made(change))
    {
      ghost var s1, h1, left1 := g.State(), g.heights, left;
      AccountReady(s, h, s1, h1, purse, ground, coins, Taken(moneyMap, i), Worth(m[..i]), NOTHING);
      ListedTakeable(s, h, purse, moneyMap, i);
      StillTakeable(s, h, s1, h1, purse, ground, Taken(moneyMap, i), moneyMap[i], coins, Worth(m[..i]), NOTHING);
      left, change := PayWith(g, purse, ground, coins, moneyMap[i], left, noLimit);
      MidwayStep(ds, m, amount, i, left1, left, change.kept, change.dropped);
      WorthNext(m, i);
      AccountChain(s, h, s1, h1, g.State(), g.heights, purse, ground, coins, Taken(moneyMap, i), Worth(m[..i]), NOTHING,
                   {moneyMap[i].item}, moneyMap[i].worth, change);
      assert Plus(change, NOTHING) == change;
      i := i + 1;
    }
    MidwayEnd(ds, m, amount, i, left, change.kept, change.dropped);
  }

  lemma WorthNext(m: seq<Stack>, i: nat)
    requires i < |m|
    ensures Worth(m[..i + 1]) == Worth(m[..i]) + StackWorth(m[i])
  {
    assert m[..i + 1] == m[..i] + [m[i]];
    WorthConcat(m[..i], [m[i]]);
    WorthOfOne(m[i]);
  }

  lemma ReadyForest(s: World, h: Heights, purse: Item, ground: Item)
    requires Ready(s, h, purse, ground)
    ensures Forest(s, h) && purse in s && ground in s && purse.isContainer
  {
  }

  lemma NoneTaken(m: seq<Entry>)
    ensures Taken(m, 0) == {} && Worth(Stacks(m)[..0]) == Worth([]) == 0
  {
    assert Stacks(m)[..0] == [];
  }

  /**
    The cheapest stacks that are enough are gone, all else is where it was, and the change has been given, in the
    container as far as there is room.
   */
  ghost predicate Paying(s: World, h: Heights, s': World, h': Heights, purse: Item, ground: Item, coins: seq<Kind>,
                         m: seq<Entry>, amount: nat, noLimit: bool, ok: bool, change: Change)
    requires Forest(s, h) && purse in s && Coinage(coins)
  {
    var n := Enough(Stacks(m), amount);
    && AllMoney(s, h, purse, m) && LevelByLevel(s, h, purse, m)
    && Account(s, h, s', h', purse, ground, coins, Taken(m, n), Worth(Stacks(m)[..n]), change)
    && Fitted(s', purse, change, noLimit) && Neat(Made(change))
    && if ok
       then
         && Worth(Stacks(m)[..n]) >= amount
         && Pays(Denominations(coins), Worth(Stacks(m)[..n]) - amount, change.kept, change.dropped)
       else change == NOTHING
  }

  /** What it comes to for the two containers, which were and are worth so much. */
  predicate Costs(purse0: nat, ground0: nat, purse1: nat, ground1: nat, ds: seq<nat>, amount: nat, ok: bool) {
    if ok then
      && (1 in ds ==> purse1 + ground1 == purse0 + ground0 - amount)
      && (ds != [] ==> purse0 + ground0 - amount - ds[0] < purse1 + ground1 <= purse0 + ground0 - amount)
    else ground1 == ground0 && purse1 == if amount % 0x1_0000_0000 <= purse0 then 0 else purse0
  }

  lemma PayingCosts(s: World, h: Heights, s': World, h': Heights, purse: Item, ground: Item, coins: seq<Kind>,
                    m: seq<Entry>, amount: nat, noLimit: bool, ok: bool, change: Change, purse0: nat, ground0: nat,
                    purse1: nat, ground1: nat)
    requires Ready(s, h, purse, ground) && Ready(s', h', purse, ground) && Coinage(coins)
    requires purse0 == Wealth(s, h, purse) && ground0 == Wealth(s, h, ground)
    requires purse1 == Wealth(s', h', purse) && ground1 == Wealth(s', h', ground)
    requires ok <==> amount <= purse0
    requires amount % 0x1_0000_0000 <= purse0
    requires Paying(s, h, s', h', purse, ground, coins, m, amount, noLimit, ok, change)
    ensures Costs(purse0, ground0, purse1, ground1, Denominations(coins), amount, ok)
  {
    hide Ready, Since, Wealth, Worth, Enough, Pays, Entries, Inside, IsMoney, Stacks, Taken, Laid, Distinct, Items;
    hide Ascending, Fitted, Neat, Made, LevelByLevel;
    EnoughIsLeast(Stacks(m), amount);
    assert Stacks(m)[..|m|] == Stacks(m);
    CostsAre(purse0, ground0, purse1, ground1, Denominations(coins), amount, ok,
             Worth(Stacks(m)[..Enough(Stacks(m), amount)]), change);
  }

  lemma CostsAre(purse0: nat, ground0: nat, purse1: nat, ground1: nat, ds: seq<nat>, amount: nat, ok: bool, taken: nat,
                 change: Change)
    requires Ascending(ds) && amount % 0x1_0000_0000 <= purse0
    requires purse1 == purse0 - taken + Worth(change.kept) && ground1 == ground0 + Worth(change.dropped)
    requires if ok then taken >= amount && Pays(ds, taken - amount, change.kept, change.dropped)
             else taken == purse0 && change == NOTHING
    ensures Costs(purse0, ground0, purse1, ground1, ds, amount, ok)
  {
    hide Pays, Worth, Ascending;
    if ok {
      PaysWorth(ds, taken - amount, change.kept, change.dropped);
      if ds != [] {
        LittleIsLeft(ds, taken - amount);
      }
      if 1 in ds {
        SmallestIsOne(ds);
      }
    } else {
      EnoughForNothing([]);
    }
  }

  /**
    Pays an amount from all the money in a container, at any depth: the cheapest stacks that are enough
    are taken out, and change is put into the container, or onto the ground.
   */
  method RemoveMoney(g: Game, purse: Item, ground: Item, coins: seq<Kind>, amount: nat, noLimit: bool)
    returns (ok: bool, ghost m: seq<Entry>, ghost change: Change)
    requires Ready(g.State(), g.heights, purse, ground) && Coinage(coins)
    modifies g, g.items
    ensures Ready(g.State(), g.heights, purse, ground) && fresh(g.items - old(g.items))
    ensures ok <==> amount <= old(Wealth(g.State(), g.heights, purse))
    ensures if amount == 0 || old(Wealth(g.State(), g.heights, purse)) < amount % 0x1_0000_0000
            then g.State() == old(g.State()) && g.heights == old(g.heights)
            else Paying(old(g.State()), old(g.heights), g.State(), g.heights, purse, ground, coins, m, amount, noLimit,
                        ok, change)
    ensures Costs(old(Wealth(g.State(), g.heights, purse)), old(Wealth(g.State(), g.heights, ground)),
                  Wealth(g.State(), g.heights, purse), Wealth(g.State(), g.heights, ground),
                  Denominations(coins), amount, ok)
  {
    hide Valid, Apart, StacksFit, AllMoney, Account, Pays, Worth, Enough, Ascending, Stacks, Taken, Game.State, Wealth;
    hide Fitted, Neat, Made, Forest, Ready, LevelByLevel;
    m, change := [], NOTHING;
    ReadyForest(g.State(), g.heights, purse, ground);
    if amount == 0 {
      CoinsPositive(coins);
      return true, m, change;
    }
    ghost var s, h := g.State(), g.heights;
    StateRepresents(g);
    ModSmaller(amount);
    var moneyMap, moneyCount := CollectMoney(purse, s, h);
    m := moneyMap;
    if moneyCount < amount % 0x1_0000_0000 {
      return false, m, change;
    }
    MoneyWorth(s, h, purse, m);
    var left;
    left, change := TakeMoney(g, purse, ground, coins, moneyMap, amount, noLimit);
    ok := left == 0;
    ghost var n := Enough(Stacks(m), amount);
    AccountReady(s, h, g.State(), g.heights, purse, ground, coins, Taken(m, n), Worth(Stacks(m)[..n]), change);
    ReadyForest(g.State(), g.heights, purse, ground);
    PayingCosts(s, h, g.State(), g.heights, purse, ground, coins, m, amount, noLimit, ok, change,
                Wealth(s, h, purse), Wealth(s, h, ground), Wealth(g.State(), g.heights, purse),
                Wealth(g.State(), g.heights, ground));
  }

  lemma MoneyWorth(s: World, h: Heights, purse: Item, m: seq<Entry>)
    requires Forest(s, h) && purse in s && AllMoney(s, h, purse, m)
    ensures Worth(Stacks(m)) == Wealth(s, h, purse)
  {
  }

  lemma CoinsPositive(coins: seq<Kind>)
    requires Coinage(coins)
    ensures coins != [] ==> Denominations(coins)[0] > 0
  {
  }

  lemma StateRepresents(g: Game)
    ensures Represents(g.State())
  {
  }
}
