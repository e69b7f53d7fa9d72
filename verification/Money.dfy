/**
  Paying and giving money.

  A purse is what one meets walking over everything a cylinder holds; whatever does not fit in it when
  change is given falls to the tile it stands on.  Whether a stack fits is left open.
 */
module Money {
  datatype Stack = Stack(worth: nat, count: nat)

  function StackWorth(x: Stack): nat {
    x.worth * x.count
  }

  function Worth(xs: seq<Stack>): nat {
    if xs == [] then 0 else StackWorth(xs[0]) + Worth(xs[1..])
  }

  lemma {:induction false} WorthConcat(xs: seq<Stack>, ys: seq<Stack>)
    ensures Worth(xs + ys) == Worth(xs) + Worth(ys)
  {
    if xs == [] {
      assert xs + ys == ys;
    } else {
      WorthConcat(xs[1..], ys);
      assert (xs + ys)[1..] == xs[1..] + ys;
    }
  }

  lemma WorthOfOne(x: Stack)
    ensures Worth([x]) == StackWorth(x)
  {
    assert [x][1..] == [];
  }

  lemma WorthOfFront(x: Stack, xs: seq<Stack>)
    ensures Worth([x] + xs) == StackWorth(x) + Worth(xs)
  {
    assert ([x] + xs)[1..] == xs;
  }

  // ---------------------------------------------------------------- change

  /** What coins are worth, from the smallest to the largest. */
  predicate Ascending(ds: seq<nat>) {
    && (forall i :: 0 <= i < |ds| ==> ds[i] > 0)
    && (forall i, j :: 0 <= i < j < |ds| ==> ds[i] < ds[j])
  }

  lemma SmallestIsOne(ds: seq<nat>)
    requires Ascending(ds) && 1 in ds
    ensures ds[0] == 1
  {
  }

  function Last(ds: seq<nat>): nat
    requires ds != []
  {
    ds[|ds| - 1]
  }

  function Front(ds: seq<nat>): seq<nat>
    requires ds != []
  {
    ds[..|ds| - 1]
  }

  lemma FrontAscends(ds: seq<nat>)
    requires Ascending(ds) && ds != []
    ensures Last(ds) > 0 && Ascending(Front(ds))
  {
  }

  /** What no coin is small enough for. */
  function Left(ds: seq<nat>, money: nat): nat
    requires Ascending(ds)
  {
    if ds == [] then money else
    FrontAscends(ds);
    Left(Front(ds), money % Last(ds))
  }

  /** How many coins worth `d` an amount is paid with. */
  function Coins(ds: seq<nat>, money: nat, d: nat): nat
    requires Ascending(ds)
  {
    if ds == [] then 0 else
    FrontAscends(ds);
    (if d == Last(ds) then money / Last(ds) else 0) + Coins(Front(ds), money % Last(ds), d)
  }

  lemma {:induction false} NoSuchCoins(ds: seq<nat>, money: nat, d: nat)
    requires Ascending(ds) && d !in ds
    ensures Coins(ds, money, d) == 0
  {
    if ds != [] {
      NoSuchCoins(Front(ds), money % Last(ds), d);
    }
  }

  /** Less is left than the smallest coin is worth; with coins worth one nothing is left. */
  lemma {:induction false} LittleIsLeft(ds: seq<nat>, money: nat)
    requires Ascending(ds) && ds != []
    ensures Left(ds, money) < ds[0]
  {
    if |ds| > 1 {
      LittleIsLeft(Front(ds), money % Last(ds));
    }
  }

  /** What the coins up to place `i` come to. */
  function CoinsWorth(ds: seq<nat>, money: nat, i: nat): nat
    requires Ascending(ds) && i <= |ds|
  {
    if i == 0 then 0 else CoinsWorth(ds, money, i - 1) + ds[i - 1] * Coins(ds, money, ds[i - 1])
  }

  /** The largest coins first: what the smaller coins come to, with what is left, is less than a larger coin. */
  lemma {:induction false} ChangeIsGreedy(ds: seq<nat>, money: nat)
    requires Ascending(ds)
    ensures CoinsWorth(ds, money, |ds|) + Left(ds, money) == money
    ensures forall i :: 0 <= i < |ds| ==> CoinsWorth(ds, money, i) + Left(ds, money) < ds[i]
  {
    if ds != [] {
      var n, rest := |ds| - 1, money % Last(ds);
      ChangeIsGreedy(Front(ds), rest);
      LargestCoins(ds, money);
      hide Coins, Left, CoinsWorth;
      forall i | 0 <= i <= n ensures CoinsWorth(ds, money, i) == CoinsWorth(Front(ds), rest, i) {
        SmallerCoins(ds, money, i);
      }
    } else {
      hide Coins;
    }
  }

  lemma LargestCoins(ds: seq<nat>, money: nat)
    requires Ascending(ds) && ds != []
    ensures CoinsWorth(ds, money, |ds|) == CoinsWorth(ds, money, |ds| - 1) + (money - money % Last(ds))
    ensures Left(ds, money) == Left(Front(ds), money % Last(ds))
  {
    hide Ascending, Coins;
    MostOfLargest(ds, money);
    WholePart(money, Last(ds));
  }

  lemma MostOfLargest(ds: seq<nat>, money: nat)
    requires Ascending(ds) && ds != []
    ensures Last(ds) > 0 && Coins(ds, money, Last(ds)) == money / Last(ds)
  {
    NoSuchCoins(Front(ds), money % Last(ds), Last(ds));
  }

  lemma WholePart(money: nat, d: nat)
    requires d > 0
    ensures d * (money / d) == money - money % d
  {
  }

  lemma {:induction false} SmallerCoins(ds: seq<nat>, money: nat, i: nat)
    requires Ascending(ds) && i < |ds|
    ensures CoinsWorth(ds, money, i) == CoinsWorth(Front(ds), money % Last(ds), i)
  {
    if i > 0 {
      SmallerCoins(ds, money, i - 1);
      assert Front(ds)[i - 1] == ds[i - 1] < Last(ds);
      assert Coins(ds, money, ds[i - 1]) == Coins(Front(ds), money % Last(ds), ds[i - 1]);
    }
  }

  /** How many coins worth `d` there are in some stacks. */
  function NumberOf(xs: seq<Stack>, d: nat): nat {
    if xs == [] then 0 else (if xs[0].worth == d then xs[0].count else 0) + NumberOf(xs[1..], d)
  }

  lemma NumberOfFront(x: Stack, xs: seq<Stack>, d: nat)
    ensures NumberOf([x] + xs, d) == (if x.worth == d then x.count else 0) + NumberOf(xs, d)
  {
    assert ([x] + xs)[1..] == xs;
  }

  /** Sorted by what a coin is worth, and of each coin all stacks but the first are full. */
  predicate Neat(xs: seq<Stack>) {
    forall i, j :: 0 <= i < j < |xs| ==>
        xs[i].worth < xs[j].worth || (xs[i].worth == xs[j].worth && xs[j].count == 100)
  }

  /** A smaller coin, or more of the smallest when there are only full stacks of it, goes to the front. */
  lemma NeatFront(x: Stack, xs: seq<Stack>)
    requires Neat(xs) && forall y :: y in xs ==> x.worth < y.worth || (x.worth == y.worth && y.count == 100)
    ensures Neat([x] + xs)
  {
  }

  lemma SmallerNext(ds: seq<nat>, i: nat, xs: seq<Stack>)
    requires Ascending(ds) && 0 < i <= |ds| && forall y :: y in xs ==> i < |ds| && y.worth >= ds[i]
    ensures forall y :: y in xs ==> ds[i - 1] < y.worth
  {
  }

  lemma NoneNeat()
    ensures Neat([])
  {
  }

  // ---------------------------------------------------------------- the cheapest stacks first

  predicate InOrder(xs: seq<Stack>) {
    forall i, j :: 0 <= i < j < |xs| ==> StackWorth(xs[i]) <= StackWorth(xs[j])
  }

  /** Adds a stack behind all that are worth no more. */
  function Insert(xs: seq<Stack>, x: Stack): seq<Stack> {
    if xs == [] || StackWorth(x) < StackWorth(xs[0]) then [x] + xs else [xs[0]] + Insert(xs[1..], x)
  }

  /** The stacks that are worth something, the cheapest first. */
  function Sorted(xs: seq<Stack>): seq<Stack> {
    if xs == [] then [] else
    var rest := Sorted(xs[..|xs| - 1]);
    var x := xs[|xs| - 1];
    if StackWorth(x) > 0 then Insert(rest, x) else rest
  }

  /** Where that is: behind stacks worth no more, and before one that is worth more, if there is any. */
  lemma {:induction false} InsertsBehind(xs: seq<Stack>, x: Stack) returns (k: nat)
    ensures k <= |xs| && Insert(xs, x) == xs[..k] + [x] + xs[k..]
    ensures forall i :: 0 <= i < k ==> StackWorth(xs[i]) <= StackWorth(x)
    ensures k < |xs| ==> StackWorth(x) < StackWorth(xs[k])
  {
    hide StackWorth;
    if xs == [] || StackWorth(x) < StackWorth(xs[0]) {
      k := 0;
    } else {
      k := InsertsBehind(xs[1..], x);
      k := k + 1;
      assert xs == [xs[0]] + xs[1..];
    }
  }

  lemma {:induction false} InsertIsFair(xs: seq<Stack>, x: Stack)
    ensures Worth(Insert(xs, x)) == Worth(xs) + StackWorth(x)
    ensures multiset(Insert(xs, x)) == multiset(xs) + multiset{x}
  {
    hide StackWorth;
    if xs == [] || StackWorth(x) < StackWorth(xs[0]) {
      WorthOfFront(x, xs);
    } else {
      InsertIsFair(xs[1..], x);
      WorthOfFront(xs[0], Insert(xs[1..], x));
      assert xs == [xs[0]] + xs[1..];
    }
  }

  lemma {:induction false} InsertKeepsOrder(xs: seq<Stack>, x: Stack)
    requires InOrder(xs)
    ensures InOrder(Insert(xs, x))
  {
    hide StackWorth;
    if xs != [] && StackWorth(x) >= StackWorth(xs[0]) {
      InsertKeepsOrder(xs[1..], x);
      InsertIsFair(xs[1..], x);
      var rest := Insert(xs[1..], x);
      forall y | y in rest ensures StackWorth(xs[0]) <= StackWorth(y) {
        assert y in multiset(rest);
      }
    }
  }

  lemma {:induction false} SortedIsFair(xs: seq<Stack>)
    ensures InOrder(Sorted(xs)) && Worth(Sorted(xs)) == Worth(xs)
    ensures multiset(Sorted(xs)) <= multiset(xs)
  {
    if xs != [] {
      var front, x := xs[..|xs| - 1], xs[|xs| - 1];
      assert xs == front + [x];
      SortedIsFair(front);
      WorthConcat(front, [x]);
      WorthOfOne(x);
      InsertIsFair(Sorted(front), x);
      InsertKeepsOrder(Sorted(front), x);
    }
  }

  /** What is worth nothing is never taken, and all else is there to be taken. */
  lemma {:induction false} SortedIsAll(xs: seq<Stack>, x: Stack)
    ensures multiset(Sorted(xs))[x] == if StackWorth(x) > 0 then multiset(xs)[x] else 0
  {
    if xs != [] {
      var front, last := xs[..|xs| - 1], xs[|xs| - 1];
      assert xs == front + [last];
      SortedIsAll(front, x);
      InsertIsFair(Sorted(front), last);
    }
  }

  /** How many of some stacks one must take, in their order, to pay an amount. */
  function Enough(xs: seq<Stack>, money: nat): (n: nat)
    ensures n <= |xs|
  {
    if money == 0 || xs == [] then 0
    else if StackWorth(xs[0]) >= money then 1
    else 1 + Enough(xs[1..], money - StackWorth(xs[0]))
  }

  /** Those stacks pay if all would, and none can be spared. */
  lemma {:induction false} EnoughIsLeast(xs: seq<Stack>, money: nat)
    ensures var n := Enough(xs, money);
            && (Worth(xs[..n]) >= money <==> Worth(xs) >= money)
            && (n > 0 ==> Worth(xs[..n - 1]) < money)
            && (Worth(xs) < money ==> n == |xs|)
  {
    var n := Enough(xs, money);
    if money > 0 && xs != [] {
      assert xs[..n] == [xs[0]] + xs[1..][..n - 1];
      WorthOfFront(xs[0], xs[1..][..n - 1]);
      if StackWorth(xs[0]) >= money {
        assert xs[..0] == [];
      } else {
        EnoughIsLeast(xs[1..], money - StackWorth(xs[0]));
        if n > 1 {
          assert xs[..n - 1] == [xs[0]] + xs[1..][..n - 2];
          WorthOfFront(xs[0], xs[1..][..n - 2]);
        }
      }
    } else {
      assert xs[..0] == [];
    }
  }

  lemma {:induction false} EnoughGoesOn(xs: seq<Stack>, money: nat, i: nat)
    requires i < |xs| && Worth(xs[..i]) < money
    ensures Worth(xs[..i + 1]) == Worth(xs[..i]) + StackWorth(xs[i])
    ensures Enough(xs, money) > i
    ensures Worth(xs[..i + 1]) >= money ==> Enough(xs, money) == i + 1
    decreases i
  {
    assert xs[..i + 1] == xs[..i] + [xs[i]];
    WorthConcat(xs[..i], [xs[i]]);
    WorthOfOne(xs[i]);
    if i > 0 {
      assert xs[..i] == [xs[0]] + xs[1..][..i - 1];
      WorthOfFront(xs[0], xs[1..][..i - 1]);
      assert xs[..i + 1] == [xs[0]] + xs[1..][..i];
      WorthOfFront(xs[0], xs[1..][..i]);
      EnoughGoesOn(xs[1..], money - StackWorth(xs[0]), i - 1);
    } else {
      assert xs[..0] == [];
    }
  }
}
