/** The code that gives and takes money. */
module MoneyGame {
  import opened Money

  /** New stacks, in the purse and on the tile, that pay an amount as far as the coins allow. */
  ghost predicate Pays(ds: seq<nat>, amount: nat, kept: seq<Stack>, dropped: seq<Stack>)
    requires Ascending(ds)
  {
    && Worth(kept) + Worth(dropped) + Left(ds, amount) == amount
    && (forall d :: NumberOf(kept, d) + NumberOf(dropped, d) == Coins(ds, amount, d))
    && Fit(ds, kept) && Fit(ds, dropped)
  }

  predicate Fit(ds: seq<nat>, xs: seq<Stack>) {
    forall x :: x in xs ==> 1 <= x.count <= 100 && x.worth in ds
  }

  /** Part of the way: the coins from place `i` on are paid, but for `tmp` of the one at that place. */
  ghost predicate Paid(ds: seq<nat>, amount: nat, i: nat, tmp: nat, money: nat, kept: seq<Stack>, dropped: seq<Stack>)
    requires Ascending(ds) && i <= |ds| && (tmp > 0 ==> i < |ds|)
  {
    && Worth(kept) + Worth(dropped) + money + (if tmp > 0 then tmp * ds[i] else 0) == amount
    && Left(ds[..i], money) == Left(ds, amount)
    && (forall d ::
          NumberOf(kept, d) + NumberOf(dropped, d) + Coins(ds[..i], money, d)
          + (if tmp > 0 && d == ds[i] then tmp else 0)
                    == Coins(ds, amount, d))
    && Fit(ds, kept) && Fit(ds, dropped)
  }

  lemma PaidStart(ds: seq<nat>, amount: nat)
    requires Ascending(ds)
    ensures Paid(ds, amount, |ds|, 0, amount, [], [])
  {
    assert ds[..|ds|] == ds;
  }

  lemma PaidEnd(ds: seq<nat>, amount: nat, money: nat, kept: seq<Stack>, dropped: seq<Stack>)
    requires Ascending(ds) && Paid(ds, amount, 0, 0, money, kept, dropped)
    ensures Pays(ds, amount, kept, dropped)
  {
    hide NumberOf, Worth;
    forall d ensures NumberOf(kept, d) + NumberOf(dropped, d) == Coins(ds, amount, d) {
      assert NumberOf(kept, d) + NumberOf(dropped, d) + Coins(ds[..0], money, d) == Coins(ds, amount, d);
    }
  }

  /** The next smaller coin is divided out. */
  lemma PaidNext(ds: seq<nat>, amount: nat, i: nat, money: nat, kept: seq<Stack>, dropped: seq<Stack>)
    requires Ascending(ds) && i < |ds| && Paid(ds, amount, i + 1, 0, money, kept, dropped)
    ensures Paid(ds, amount, i, money / ds[i], money - money / ds[i] * ds[i], kept, dropped)
  {
    hide NumberOf, Worth, Fit, Coins, Left;
    DivMod(money, ds[i]);
    var tmp, rest := money / ds[i], money - money / ds[i] * ds[i];
    Divided(ds, i, money, ds[i]);
    forall d
      ensures NumberOf(kept, d) + NumberOf(dropped, d) + Coins(ds[..i], rest, d)
              + (if tmp > 0 && d == ds[i] then tmp else 0)
              == Coins(ds, amount, d)
    {
      Divided(ds, i, money, d);
      assert NumberOf(kept, d) + NumberOf(dropped, d) + Coins(ds[..i + 1], money, d) == Coins(ds, amount, d);
    }
  }

  lemma Divided(ds: seq<nat>, i: nat, money: nat, d: nat)
    requires Ascending(ds) && i < |ds|
    ensures Left(ds[..i + 1], money) == Left(ds[..i], money % ds[i])
    ensures Coins(ds[..i + 1], money, d) == (if d == ds[i] then money / ds[i] else 0) + Coins(ds[..i], money % ds[i], d)
  {
    assert Front(ds[..i + 1]) == ds[..i] && Last(ds[..i + 1]) == ds[i];
  }

  lemma DivMod(money: nat, d: nat)
    requires d > 0
    ensures money / d * d + money % d == money && 0 <= money - money / d * d == money % d
  {
  }

  /** One more stack is put down. */
  lemma PaidStack(ds: seq<nat>, amount: nat, i: nat, tmp: nat, n: nat, money: nat, kept: seq<Stack>,
                  dropped: seq<Stack>)
    requires Ascending(ds) && i < |ds| && 0 < n <= tmp && n <= 100 && Paid(ds, amount, i, tmp, money, kept, dropped)
    ensures Paid(ds, amount, i, tmp - n, money, [Stack(ds[i], n)] + kept, dropped)
    ensures Paid(ds, amount, i, tmp - n, money, kept, [Stack(ds[i], n)] + dropped)
  {
    hide Coins, Left;
    var x := Stack(ds[i], n);
    WorthOfFront(x, kept);
    WorthOfFront(x, dropped);
    Splits(tmp, n, ds[i]);
    hide NumberOf, Worth;
    forall d
      ensures NumberOf([x] + kept, d) + NumberOf(dropped, d) + Coins(ds[..i], money, d)
              + (if tmp - n > 0 && d == ds[i] then tmp - n else 0)
              == Coins(ds, amount, d)
      ensures NumberOf(kept, d) + NumberOf([x] + dropped, d) + Coins(ds[..i], money, d)
              + (if tmp - n > 0 && d == ds[i] then tmp - n else 0)
              == Coins(ds, amount, d)
    {
      NumberOfFront(x, kept, d);
      NumberOfFront(x, dropped, d);
      assert NumberOf(kept, d) + NumberOf(dropped, d) + Coins(ds[..i], money, d)
          + (if tmp > 0 && d == ds[i] then tmp else 0)
             == Coins(ds, amount, d);
    }
  }

  lemma Splits(tmp: nat, n: nat, d: nat)
    requires n <= tmp
    ensures tmp * d == (tmp - n) * d + d * n
  {
  }

  // ---------------------------------------------------------------- the code

  class Cylinder {
    const ds: seq<nat>
    var purse: seq<Stack>
    var tile: seq<Stack>

    constructor (ds: seq<nat>, purse: seq<Stack>, tile: seq<Stack>)
      ensures this.ds == ds && this.purse == purse && this.tile == tile
    {
      this.ds, this.purse, this.tile := ds, purse, tile;
    }

    /** Puts down some coins of one kind, at most a hundred in a stack. */
    method AddCoins(i: nat, coins: nat, ghost amount: nat, ghost money: nat, ghost kept0: seq<Stack>,
                    ghost dropped0: seq<Stack>, ghost made0: seq<Stack>)
      returns (ghost kept: seq<Stack>, ghost dropped: seq<Stack>, ghost made: seq<Stack>)
      requires Ascending(ds) && i < |ds| && Paid(ds, amount, i, coins, money, kept0, dropped0)
      requires multiset(made0) == multiset(kept0) + multiset(dropped0) && Neat(made0)
      requires forall y :: y in made0 ==> ds[i] < y.worth
      modifies this
      ensures Paid(ds, amount, i, 0, money, kept, dropped)
      ensures BothGrow(kept0, kept, old(purse), purse) && BothGrow(dropped0, dropped, old(tile), tile)
      ensures multiset(made) == multiset(kept) + multiset(dropped) && Neat(made)
      ensures forall y :: y in made ==> ds[i] <= y.worth
    {
      hide Paid, Neat, Ascending, BothGrow;
      var tmp: nat := coins;
      kept, dropped, made := kept0, dropped0, made0;
      NoneGrows(kept0, purse);
      NoneGrows(dropped0, tile);
      while tmp > 0
        invariant Paid(ds, amount, i, tmp, money, kept, dropped)
        invariant BothGrow(kept0, kept, old(purse), purse) && BothGrow(dropped0, dropped, old(tile), tile)
        invariant multiset(made) == multiset(kept) + multiset(dropped) && Neat(made)
        invariant forall y :: y in made ==> ds[i] < y.worth || (ds[i] == y.worth && (tmp > 0 ==> y.count == 100))
      {
        var n := if tmp < 100 then tmp else 100;
        var fits: bool := *;
        var x := Stack(ds[i], n);
        PaidStack(ds, amount, i, tmp, n, money, kept, dropped);
        NeatFront(x, made);
        MadeCounts(x, made, kept, dropped);
        made := [x] + made;
        if fits {
          OneGrows(x, kept0, kept, old(purse), purse);
          purse, kept := [x] + purse, [x] + kept;
        } else {
          OneGrows(x, dropped0, dropped, old(tile), tile);
          tile, dropped := [x] + tile, [x] + dropped;
        }
        tmp := tmp - n;
      }
    }

    /** Puts down new stacks that pay an amount, the largest coins first and at most a hundred in a stack. */
    method AddMoney(amount: nat) returns (ghost kept: seq<Stack>, ghost dropped: seq<Stack>, ghost made: seq<Stack>)
      requires Ascending(ds)
      modifies this
      ensures purse == kept + old(purse) && tile == dropped + old(tile)
      ensures Pays(ds, amount, kept, dropped)
      ensures multiset(made) == multiset(kept) + multiset(dropped) && Neat(made)
    {
      hide Pays, Paid, Neat;
      var money: nat := amount;
      kept, dropped, made := [], [], [];
      var i: nat := |ds|;
      PaidStart(ds, amount);
      assert Neat([]) by { NoneNeat(); }
      while i > 0
        invariant i <= |ds| && Paid(ds, amount, i, 0, money, kept, dropped)
        invariant purse == kept + old(purse) && tile == dropped + old(tile)
        invariant multiset(made) == multiset(kept) + multiset(dropped) && Neat(made)
        invariant forall y :: y in made ==> i < |ds| && y.worth >= ds[i]
      {
        SmallerNext(ds, i, made);
        PaidNext(ds, amount, i - 1, money, kept, dropped);
        i := i - 1;
        var tmp: nat := money / ds[i];
        DivMod(money, ds[i]);
        money := money - tmp * ds[i];
        ghost var kept0, purse0, dropped0, tile0 := kept, purse, dropped, tile;
        kept, dropped, made := AddCoins(i, tmp, amount, money, kept, dropped, made);
        StillInFront(kept0, kept, purse0, purse, old(purse));
        StillInFront(dropped0, dropped, tile0, tile, old(tile));
      }
      PaidEnd(ds, amount, money, kept, dropped);
    }

    method RemoveStack(x: Stack)
      requires x in purse
      modifies this`purse
      ensures multiset(purse) == multiset(old(purse)) - multiset{x}
      ensures Worth(purse) == Worth(old(purse)) - StackWorth(x)
    {
      var k := 0;
      while purse[k] != x
        invariant k < |purse| && x !in purse[..k]
        decreases |purse| - k
      {
        k := k + 1;
      }
      assert purse == purse[..k] + [x] + purse[k + 1..];
      WorthConcat(purse[..k] + [x], purse[k + 1..]);
      WorthConcat(purse[..k], [x]);
      WorthConcat(purse[..k], purse[k + 1..]);
      WorthOfOne(x);
      purse := purse[..k] + purse[k + 1..];
    }

    /** Finds all stacks that are worth something, in the order of their worth. */
    method CollectMoney() returns (moneyMap: seq<Stack>, moneyCount: nat)
      ensures moneyMap == Sorted(purse) && moneyCount == Worth(purse)
    {
      moneyMap, moneyCount := [], 0;
      for i := 0 to |purse|
        invariant moneyMap == Sorted(purse[..i]) && moneyCount == Worth(purse[..i])
      {
        assert purse[..i + 1][..i] == purse[..i];
        assert purse[..i + 1] == purse[..i] + [purse[i]];
        WorthConcat(purse[..i], [purse[i]]);
        WorthOfOne(purse[i]);
        if StackWorth(purse[i]) > 0 {
          moneyCount := moneyCount + StackWorth(purse[i]);
          moneyMap := Insert(moneyMap, purse[i]);
        }
      }
      assert purse[..|purse|] == purse;
    }

    /** Takes one stack, and gives change if it is worth more than what is left to pay. */
    method TakeStack(x: Stack, left: nat) returns (left': nat, ghost kept: seq<Stack>, ghost dropped: seq<Stack>)
      requires Ascending(ds) && x in purse && left > 0
      modifies this
      ensures After(old(purse), old(tile), purse, tile, [x], kept, dropped)
      ensures if StackWorth(x) >= left then left' == 0 && Pays(ds, StackWorth(x) - left, kept, dropped)
              else left' == left - StackWorth(x) && kept == dropped == []
    {
      hide Pays, After, Ascending, Worth;
      kept, dropped := [], [];
      RemoveStack(x);
      ghost var before := purse;
      AfterRemoval(old(purse), old(tile), before, x);
      if StackWorth(x) > left {
        ghost var made;
        kept, dropped, made := AddMoney(StackWorth(x) - left);
        AfterChange(old(purse), old(tile), before, tile, [x], kept, dropped);
        left' := 0;
      } else {
        NothingPaid(ds);
        left' := left - StackWorth(x);
      }
    }

    /** Takes stacks in the given order until an amount is paid, and gives change. */
    method TakeMoney(moneyMap: seq<Stack>, amount: nat)
      returns (left: nat, ghost taken: seq<Stack>, ghost kept: seq<Stack>, ghost dropped: seq<Stack>)
      requires Ascending(ds) && multiset(moneyMap) <= multiset(purse)
      modifies this
      ensures taken == moneyMap[..Enough(moneyMap, amount)]
      ensures After(old(purse), old(tile), purse, tile, taken, kept, dropped)
      ensures left == 0 <==> amount <= Worth(moneyMap)
      ensures if left == 0 then Worth(taken) >= amount && Pays(ds, Worth(taken) - amount, kept, dropped)
              else kept == dropped == []
    {
      hide Pays, Enough, After, StackWorth, Worth, Midway, Ascending;
      left := amount;
      taken, kept, dropped := [], [], [];
      var i := 0;
      AfterStart(purse, tile);
      MidwayStart(ds, moneyMap, amount);
      assert moneyMap[..0] == [];
      while i < |moneyMap| && left > 0
        invariant i <= |moneyMap| && taken == moneyMap[..i]
        invariant After(old(purse), old(tile), purse, tile, taken, kept, dropped)
        invariant Midway(ds, moneyMap, amount, i, left, kept, dropped)
        invariant left > 0 ==> kept == dropped == []
      {
        ghost var purse1, tile1, left1 := purse, tile, left;
        MayTake(old(purse), old(tile), purse, tile, moneyMap, i);
        left, kept, dropped := TakeStack(moneyMap[i], left);
        AfterChain(old(purse), old(tile), purse1, tile1, purse, tile, taken, moneyMap[i], kept, dropped);
        MidwayStep(ds, moneyMap, amount, i, left1, left, kept, dropped);
        taken := taken + [moneyMap[i]];
        i := i + 1;
      }
      MidwayEnd(ds, moneyMap, amount, i, left, kept, dropped);
    }

    /**
      Pays an amount: takes the cheapest stacks that are enough, and gives change.  The test beforehand
      looks at the last 32 bits of the amount only, so when there is too little it may be taken all the same.
     */
    method RemoveMoney(amount: nat)
      returns (ok: bool, ghost taken: seq<Stack>, ghost kept: seq<Stack>, ghost dropped: seq<Stack>)
      requires Ascending(ds)
      modifies this
      ensures ok <==> amount <= Worth(old(purse))
      ensures Worth(old(purse)) < amount % 0x1_0000_0000 ==> purse == old(purse) && tile == old(tile)
      ensures Worth(old(purse)) >= amount % 0x1_0000_0000 ==>
                && taken == Sorted(old(purse))[..Enough(Sorted(old(purse)), amount)]
                && After(old(purse), old(tile), purse, tile, taken, kept, dropped)
                && (if ok then Worth(taken) >= amount && Pays(ds, Worth(taken) - amount, kept, dropped)
                    else kept == dropped == [])
    {
      hide Pays, Sorted, Enough, After;
      taken, kept, dropped := [], [], [];
      SortedIsFair(purse);
      ModSmaller(amount);
      if amount == 0 {
        NothingPaid(ds);
        EnoughForNothing(Sorted(purse));
        AfterStart(purse, tile);
        return true, [], [], [];
      }
      var moneyMap, moneyCount := CollectMoney();
      if moneyCount < amount % 0x1_0000_0000 {
        return false, [], [], [];
      }
      var left;
      left, taken, kept, dropped := TakeMoney(moneyMap, amount);
      ok := left == 0;
    }
  }

  /** The same stacks are put in front of two lists. */
  ghost predicate BothGrow(a0: seq<Stack>, a: seq<Stack>, b0: seq<Stack>, b: seq<Stack>) {
    exists xs :: a == xs + a0 && b == xs + b0
  }

  lemma NoneGrows(a: seq<Stack>, b: seq<Stack>)
    ensures BothGrow(a, a, b, b)
  {
    assert a == [] + a && b == [] + b;
  }

  lemma OneGrows(x: Stack, a0: seq<Stack>, a: seq<Stack>, b0: seq<Stack>, b: seq<Stack>)
    requires BothGrow(a0, a, b0, b)
    ensures BothGrow(a0, [x] + a, b0, [x] + b)
  {
    var xs :| a == xs + a0 && b == xs + b0;
    assert [x] + a == ([x] + xs) + a0 && [x] + b == ([x] + xs) + b0;
  }

  lemma StillInFront(a0: seq<Stack>, a: seq<Stack>, b0: seq<Stack>, b: seq<Stack>, c: seq<Stack>)
    requires BothGrow(a0, a, b0, b) && b0 == a0 + c
    ensures b == a + c
  {
    var xs :| a == xs + a0 && b == xs + b0;
    assert xs + (a0 + c) == (xs + a0) + c;
  }

  lemma MadeCounts(x: Stack, made: seq<Stack>, kept: seq<Stack>, dropped: seq<Stack>)
    requires multiset(made) == multiset(kept) + multiset(dropped)
    ensures multiset([x] + made) == multiset([x] + kept) + multiset(dropped)
    ensures multiset([x] + made) == multiset(kept) + multiset([x] + dropped)
  {
  }

  /** Before the stack at place `i`, an amount is paid but for `left`. */
  ghost predicate Midway(ds: seq<nat>, m: seq<Stack>, amount: nat, i: nat, left: nat, kept: seq<Stack>,
                         dropped: seq<Stack>)
    requires Ascending(ds) && i <= |m|
  {
    && (left > 0 ==> kept == dropped == [] && Worth(m[..i]) + left == amount)
    && (left == 0 ==>
          && i == Enough(m, amount) && Worth(m[..i]) >= amount
          && Pays(ds, Worth(m[..i]) - amount, kept, dropped))
  }

  lemma MidwayStart(ds: seq<nat>, m: seq<Stack>, amount: nat)
    requires Ascending(ds)
    ensures Midway(ds, m, amount, 0, amount, [], [])
  {
    assert m[..0] == [];
    NothingPaid(ds);
  }

  lemma MidwayStep(ds: seq<nat>, m: seq<Stack>, amount: nat, i: nat, left: nat, left': nat, kept: seq<Stack>,
                   dropped: seq<Stack>)
    requires Ascending(ds) && i < |m| && left > 0 && Midway(ds, m, amount, i, left, [], [])
    requires if StackWorth(m[i]) >= left then left' == 0 && Pays(ds, StackWorth(m[i]) - left, kept, dropped)
             else left' == left - StackWorth(m[i]) && kept == dropped == []
    ensures Midway(ds, m, amount, i + 1, left', kept, dropped) && m[..i + 1] == m[..i] + [m[i]]
  {
    hide Pays, Enough;
    EnoughGoesOn(m, amount, i);
  }

  lemma MidwayEnd(ds: seq<nat>, m: seq<Stack>, amount: nat, i: nat, left: nat, kept: seq<Stack>, dropped: seq<Stack>)
    requires Ascending(ds) && i <= |m| && Midway(ds, m, amount, i, left, kept, dropped) && (left > 0 ==> i == |m|)
    ensures i == Enough(m, amount) && (left == 0 <==> amount <= Worth(m))
    ensures if left == 0 then Worth(m[..i]) >= amount && Pays(ds, Worth(m[..i]) - amount, kept, dropped)
            else kept == dropped == []
  {
    hide Pays, Enough;
    EnoughIsLeast(m, amount);
    assert m[..|m|] == m;
  }

  /** What was taken is gone from the purse, and what was kept of the change is in it; the rest lies on the tile. */
  ghost predicate After(purse0: seq<Stack>, tile0: seq<Stack>, purse: seq<Stack>, tile: seq<Stack>,
                        taken: seq<Stack>, kept: seq<Stack>, dropped: seq<Stack>)
  {
    && multiset(taken) <= multiset(purse0)
    && multiset(purse) == multiset(purse0) - multiset(taken) + multiset(kept)
    && tile == dropped + tile0
    && Worth(purse) == Worth(purse0) - Worth(taken) + Worth(kept)
  }

  lemma AfterRemoval(purse0: seq<Stack>, tile0: seq<Stack>, purse: seq<Stack>, x: Stack)
    requires x in purse0 && multiset(purse) == multiset(purse0) - multiset{x}
    requires Worth(purse) == Worth(purse0) - StackWorth(x)
    ensures After(purse0, tile0, purse, tile0, [x], [], [])
  {
    WorthOfOne(x);
    hide StackWorth;
    assert [] + tile0 == tile0;
  }

  lemma AfterChange(purse0: seq<Stack>, tile0: seq<Stack>, purse: seq<Stack>, tile: seq<Stack>,
                    taken: seq<Stack>, kept: seq<Stack>, dropped: seq<Stack>)
    requires After(purse0, tile0, purse, tile0, taken, [], []) && tile == dropped + tile0
    ensures After(purse0, tile0, kept + purse, tile, taken, kept, dropped)
  {
    WorthConcat(kept, purse);
  }

  lemma AfterStart(purse: seq<Stack>, tile: seq<Stack>)
    ensures After(purse, tile, purse, tile, [], [], [])
  {
    assert [] + tile == tile;
  }

  /** One more stack may be taken. */
  lemma MayTake(purse0: seq<Stack>, tile0: seq<Stack>, purse: seq<Stack>, tile: seq<Stack>, m: seq<Stack>, i: nat)
    requires multiset(m) <= multiset(purse0) && i < |m| && After(purse0, tile0, purse, tile, m[..i], [], [])
    ensures m[i] in purse && multiset(m[..i] + [m[i]]) <= multiset(purse0)
  {
    NextTaken(multiset(purse0), purse, m, i);
  }

  lemma AfterChain(purse0: seq<Stack>, tile0: seq<Stack>, purse1: seq<Stack>, tile1: seq<Stack>, purse2: seq<Stack>,
                   tile2: seq<Stack>, taken: seq<Stack>, x: Stack, kept: seq<Stack>, dropped: seq<Stack>)
    requires After(purse0, tile0, purse1, tile1, taken, [], [])
    requires After(purse1, tile1, purse2, tile2, [x], kept, dropped)
    requires multiset(taken + [x]) <= multiset(purse0)
    ensures After(purse0, tile0, purse2, tile2, taken + [x], kept, dropped)
  {
    WorthConcat(taken, [x]);
    hide StackWorth, Worth;
    EnoughForNothing([]);
    assert [] + tile0 == tile0;
  }

  lemma NextTaken(w: multiset<Stack>, purse: seq<Stack>, m: seq<Stack>, i: nat)
    requires multiset(m) <= w && i < |m| && multiset(purse) == w - multiset(m[..i])
    ensures m[i] in purse
    ensures multiset(m[..i] + [m[i]]) <= w
  {
    assert m == (m[..i] + [m[i]]) + m[i + 1..];
    assert multiset(m)[m[i]] >= multiset(m[..i])[m[i]] + 1;
    assert m[i] in multiset(purse);
  }

  lemma {:induction false} NoCoinsForNothing(ds: seq<nat>, d: nat)
    requires Ascending(ds)
    ensures Left(ds, 0) == 0 && Coins(ds, 0, d) == 0
  {
    if ds != [] {
      NoCoinsForNothing(Front(ds), d);
    }
  }

  lemma NothingPaid(ds: seq<nat>)
    requires Ascending(ds)
    ensures Pays(ds, 0, [], [])
  {
    NoCoinsForNothing(ds, 0);
    forall d ensures Left(ds, 0) == 0 && Coins(ds, 0, d) == 0 {
      NoCoinsForNothing(ds, d);
    }
  }

  lemma EnoughForNothing(m: seq<Stack>)
    ensures Enough(m, 0) == 0 && Worth([]) == 0
  {
  }

  lemma ModSmaller(amount: nat)
    ensures amount % 0x1_0000_0000 <= amount
  {
  }

  // ---------------------------------------------------------------- what it comes to

  lemma PaysWorth(ds: seq<nat>, amount: nat, kept: seq<Stack>, dropped: seq<Stack>)
    requires Ascending(ds) && Pays(ds, amount, kept, dropped)
    ensures Worth(kept) + Worth(dropped) == amount - Left(ds, amount)
  {
  }

  lemma AfterWorth(purse0: seq<Stack>, tile0: seq<Stack>, purse: seq<Stack>, tile: seq<Stack>,
                   taken: seq<Stack>, kept: seq<Stack>, dropped: seq<Stack>)
    requires After(purse0, tile0, purse, tile, taken, kept, dropped)
    ensures Worth(purse) + Worth(tile) == Worth(purse0) - Worth(taken) + Worth(kept) + Worth(dropped) + Worth(tile0)
  {
    WorthConcat(dropped, tile0);
  }

  /**
    With a coin worth one, paying costs exactly the amount, purse and tile together; without, less than the smallest
    coin more.
   */
  lemma PaidExactly(ds: seq<nat>, amount: nat, purse0: seq<Stack>, tile0: seq<Stack>, purse: seq<Stack>,
                    tile: seq<Stack>, taken: seq<Stack>, kept: seq<Stack>, dropped: seq<Stack>)
    requires Ascending(ds) && ds != []
    requires After(purse0, tile0, purse, tile, taken, kept, dropped)
    requires Worth(taken) >= amount && Pays(ds, Worth(taken) - amount, kept, dropped)
    ensures var before, after := Worth(purse0) + Worth(tile0), Worth(purse) + Worth(tile);
            before - amount - ds[0] < after <= before - amount && (ds[0] == 1 ==> after == before - amount)
  {
    hide *;
    var change := Worth(taken) - amount;
    LittleIsLeft(ds, change);
    PaysWorth(ds, change, kept, dropped);
    AfterWorth(purse0, tile0, purse, tile, taken, kept, dropped);
  }

  /**
    When there is too little, whether anything is lost depends on the last 32 bits of the amount: then it is
    everything.
   */
  lemma {:induction false} FailureTakesAll(amount: nat, purse0: seq<Stack>, tile0: seq<Stack>, purse: seq<Stack>,
                                           tile: seq<Stack>, taken: seq<Stack>)
    requires Worth(purse0) < amount
    requires if Worth(purse0) < amount % 0x1_0000_0000 then purse == purse0 && tile == tile0
             else
               && taken == Sorted(purse0)[..Enough(Sorted(purse0), amount)]
               && After(purse0, tile0, purse, tile, taken, [], [])
    ensures tile == tile0
    ensures Worth(purse) == if amount % 0x1_0000_0000 <= Worth(purse0) then 0 else Worth(purse0)
    ensures Worth(purse) == Worth(purse0) <==> Worth(purse0) == 0 || Worth(purse0) < amount % 0x1_0000_0000
    ensures amount < 0x1_0000_0000 ==> purse == purse0
  {
    var m := Sorted(purse0);
    SortedIsFair(purse0);
    EnoughIsLeast(m, amount);
    assert m[..|m|] == m;
    assert [] + tile0 == tile0;
  }

  /** Five coins do not pay for 2^32, and are gone all the same. */
  lemma FailureExample(purse: seq<Stack>, tile: seq<Stack>, taken: seq<Stack>)
    requires var purse0, amount := [Stack(1, 5)], 0x1_0000_0000;
             if Worth(purse0) < amount % 0x1_0000_0000 then purse == purse0 && tile == []
             else
               && taken == Sorted(purse0)[..Enough(Sorted(purse0), amount)]
               && After(purse0, [], purse, tile, taken, [], [])
    ensures Worth(purse) == 0
  {
    WorthOfOne(Stack(1, 5));
    FailureTakesAll(0x1_0000_0000, [Stack(1, 5)], [], purse, tile, taken);
  }
}
