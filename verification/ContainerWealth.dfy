/** What adding, removing and creating items does to the worth of all that they are in. */
module ContainerWealth {
  import opened Containment
  import opened ContainerEffects
  import opened ContainerWalk
  import opened ContainerIteration
  import opened ContainerGame

  type Prices = map<Item, int>

  /** What an item is worth if its contents are worth what they are said to be. */
  function Priced(s: World, f: Prices, x: Item): int
    requires x in s
  {
    if x.isContainer then Total(f, s[x].contents) else s[x].kind.worth * s[x].count
  }

  ghost predicate Consistent(s: World, f: Prices) {
    f.Keys == s.Keys && forall x :: x in s ==> f[x] == Priced(s, f, x)
  }

  /** There is only one way to price everything. */
  lemma {:induction false} OnePrice(s: World, h: Heights, f: Prices, x: Item)
    requires Forest(s, h) && Consistent(s, f) && x in s
    ensures f[x] == Wealth(s, h, x)
    decreases h[x], |s[x].contents| + 1
  {
    if x.isContainer {
      ContentsIn(s, h, x);
      OnePriceBelow(s, h, f, x, s[x].contents);
    }
  }

  lemma {:induction false} OnePriceBelow(s: World, h: Heights, f: Prices, c: Item, xs: seq<Item>)
    requires Forest(s, h) && Consistent(s, f) && c in s && forall x :: x in xs ==> x in s && s[x].parent == c
    ensures Total(f, xs) == WealthBelow(s, h, c, xs)
    decreases h[c], |xs|
  {
    if xs != [] {
      OnePrice(s, h, f, xs[0]);
      OnePriceBelow(s, h, f, c, xs[1..]);
    }
  }

  ghost function Worths(s: World, h: Heights): Prices
    requires Forest(s, h)
  {
    map x | x in s :: Wealth(s, h, x)
  }

  lemma {:induction false} WorthsBelow(s: World, h: Heights, c: Item, xs: seq<Item>)
    requires Forest(s, h) && c in s && forall x :: x in xs ==> x in s && s[x].parent == c
    ensures Total(Worths(s, h), xs) == WealthBelow(s, h, c, xs)
    decreases |xs|
  {
    if xs != [] {
      WorthsBelow(s, h, c, xs[1..]);
    }
  }

  lemma WorthsConsistent(s: World, h: Heights)
    requires Forest(s, h)
    ensures Consistent(s, Worths(s, h))
  {
    var f := Worths(s, h);
    forall x | x in s ensures f[x] == Priced(s, f, x) {
      if x.isContainer {
        ContentsIn(s, h, x);
        WorthsBelow(s, h, x, s[x].contents);
      }
    }
  }

  // ---------------------------------------------------------------- a difference that is handed up

  /** Some items are worth `d` more. */
  function Shifted(f: Prices, up: set<Item>, d: int): Prices {
    map x | x in f :: f[x] + if x in up then d else 0
  }

  /** Of the contents of anything at most one is on the way up from `c`. */
  lemma ShiftedContents(s: World, h: Heights, f: Prices, c: Item, d: int, a: Item)
    requires Forest(s, h) && c in s && a in s && f.Keys == s.Keys
    ensures Total(Shifted(f, Up(s, h, c), d), s[a].contents)
            == Total(f, s[a].contents) + if a in Up(s, h, c) && a != c then d else 0
  {
    var up, xs := Up(s, h, c), s[a].contents;
    var g := Shifted(f, up, d);
    ContentsIn(s, h, a);
    if a in up && a != c {
      var y := LastStep(s, h, a, c);
      forall z | z in xs && z != y ensures z !in up {
        if z in up {
          OneWayUp(s, h, c, y, z);
        }
      }
      assert Distinct(xs) by { DistinctContents(s, a); }
      TotalChange(f, g, xs, y);
    } else {
      NothingContainsItself(s, h, c);
      UpClosed(s, h, c);
      TotalSame(f, g, xs);
    }
  }

  lemma DistinctContents(s: World, a: Item)
    requires Linked(s) && a in s
    ensures Distinct(s[a].contents)
  {
  }

  /** What is not a container is not on the way up from one. */
  lemma NoLeafAbove(s: World, h: Heights, c: Item, a: Item)
    requires Forest(s, h) && c in s && c.isContainer && a in Up(s, h, c)
    ensures a.isContainer
    decreases Above(h, c)
  {
    UpStep(s, h, c);
    if a != c {
      HolderIsContainer(s, c);
      NoLeafAbove(s, h, s[c].parent, a);
    }
  }

  /** Everything around `c` is worth `d` more, if `c` is and nothing else changes. */
  lemma PricesShift(s: World, h: Heights, f: Prices, s': World, c: Item, d: int)
    requires Forest(s, h) && Consistent(s, f) && c in s && c.isContainer && s'.Keys == s.Keys
    requires forall a :: a in s ==> s'[a].kind == s[a].kind && s'[a].count == s[a].count
    requires forall a :: a in s && a != c ==> s'[a].contents == s[a].contents
    requires Total(Shifted(f, Up(s, h, c), d), s'[c].contents) == Total(f, s[c].contents) + d
    ensures Consistent(s', Shifted(f, Up(s, h, c), d))
  {
    var g := Shifted(f, Up(s, h, c), d);
    UpStarts(s, h, c);
    forall a | a in s ensures g[a] == Priced(s', g, a) {
      if !a.isContainer {
        if a in Up(s, h, c) {
          NoLeafAbove(s, h, c, a);
        }
      } else if a != c {
        ShiftedContents(s, h, f, c, d, a);
      }
    }
  }

  // ---------------------------------------------------------------- the operations

  /** Everything in `s` is worth as much in `s'`, but what is around `c` is worth `d` more. */
  ghost predicate WealthGains(s: World, h: Heights, s': World, h': Heights, c: Item, d: int)
    requires Forest(s, h) && c in s
  {
    && Forest(s', h')
    && forall a :: a in s ==> a in s' && Wealth(s', h', a) == Wealth(s, h, a) + if a in Up(s, h, c) then d else 0
  }

  lemma GainsFromPrices(s: World, h: Heights, s': World, h': Heights, c: Item, d: int)
    requires Forest(s, h) && Forest(s', h') && c in s && s'.Keys == s.Keys
    requires Consistent(s', Shifted(Worths(s, h), Up(s, h, c), d))
    ensures WealthGains(s, h, s', h', c, d)
  {
    hide Consistent, Linked, Ranked, Up;
    forall a | a in s ensures Wealth(s', h', a) == Wealth(s, h, a) + if a in Up(s, h, c) then d else 0 {
      OnePrice(s', h', Shifted(Worths(s, h), Up(s, h, c), d), a);
    }
  }

  lemma AddWealth(s: World, h: Heights, c: Item, x: Item)
    requires MayAdd(s, h, c, x)
    ensures WealthGains(s, h, Add(s, h, c, x), Raise(s, h, c, x), c, Wealth(s, h, x))
  {
    var s', h', f, d := Add(s, h, c, x), Raise(s, h, c, x), Worths(s, h), Wealth(s, h, x);
    AddKeeps(s, h, c, x);
    AddShape(s, h, c, x);
    WorthsConsistent(s, h);
    ShiftedContents(s, h, f, c, d, c);
    hide Linked, Ranked, Coherent, Add, Raise, Up;
    assert ([x] + s[c].contents)[1..] == s[c].contents;
    PricesShift(s, h, f, s', c, d);
    GainsFromPrices(s, h, s', h', c, d);
  }

  lemma RemoveWealth(s: World, h: Heights, c: Item, x: Item)
    requires Valid(s, h) && c in s && x in s[c].contents
    ensures x in s && WealthGains(s, h, Remove(s, h, c, x), h, c, -(Wealth(s, h, x) as int))
  {
    hide Linked, Ranked, Coherent, Remove, Up, Without, Shifted, Wealth;
    HeldMayBeRemoved(s, h, c, x);
    var s', f, d: int, k := Remove(s, h, c, x), Worths(s, h), -(Wealth(s, h, x) as int), IndexOf(s[c].contents, x);
    RemoveKeeps(s, h, c, x);
    RemoveShape(s, h, c, x);
    WorthsConsistent(s, h);
    BelowNotAbove(s, h, f, c, d, Without(s[c].contents, k)) by {
      WithoutSubset(s[c].contents, k);
    }
    TotalWithout(f, s[c].contents, k);
    PricesShift(s, h, f, s', c, d);
    GainsFromPrices(s, h, s', h, c, d);
  }

  /** Contents are not on the way up from what holds them. */
  lemma BelowNotAbove(s: World, h: Heights, f: Prices, c: Item, d: int, ys: seq<Item>)
    requires Forest(s, h) && c in s && f.Keys == s.Keys && forall y :: y in ys ==> y in s[c].contents
    ensures Total(Shifted(f, Up(s, h, c), d), ys) == Total(f, ys)
  {
    NothingContainsItself(s, h, c);
    ContentsIn(s, h, c);
    TotalSame(f, Shifted(f, Up(s, h, c), d), ys);
  }

  lemma WithoutSubset(xs: seq<Item>, k: nat)
    requires k < |xs|
    ensures forall y :: y in Without(xs, k) ==> y in xs
  {
  }

  lemma NewWealth(s: World, h: Heights, x: Item, kind: Kind, count: nat)
    requires Valid(s, h) && x !in s && !x.isContainer
    ensures var s', h' := s[x := Fresh(kind, count)], h[x := 0];
            && Forest(s', h') && Wealth(s', h', x) == kind.worth * count
            && forall a :: a in s ==> Wealth(s', h', a) == Wealth(s, h, a)
  {
    NewKeeps(s, h, x, kind, count);
    NewPrices(s, h, x, kind, count);
    hide Linked, Ranked, Coherent, Consistent;
    var s', h' := s[x := Fresh(kind, count)], h[x := 0];
    forall a | a in s' ensures Wealth(s', h', a) == Worths(s, h)[x := kind.worth * count][a] {
      OnePrice(s', h', Worths(s, h)[x := kind.worth * count], a);
    }
  }

  lemma NewPrices(s: World, h: Heights, x: Item, kind: Kind, count: nat)
    requires Forest(s, h) && x !in s && !x.isContainer
    ensures Consistent(s[x := Fresh(kind, count)], Worths(s, h)[x := kind.worth * count])
  {
    hide Wealth;
    var s', f := s[x := Fresh(kind, count)], Worths(s, h);
    var g := f[x := kind.worth * count];
    WorthsConsistent(s, h);
    forall a | a in s' ensures g[a] == Priced(s', g, a) {
      if a != x && a.isContainer {
        ContentsIn(s, h, a);
        TotalSame(f, g, s[a].contents);
      }
    }
  }
}
