/**
  How a damage-over-time condition spreads an amount over its rounds: a falling list of values,
  each value repeated as long as that brings the running total closer to its share.
 */
module DamageList {
  import opened Arithmetic
  import opened ConditionCommon

  function AbsReal(x: real): real {
    if x < 0.0 then -x else x
  }

  function Sum(s: seq<int>): int {
    if s == [] then 0 else Sum(s[..|s| - 1]) + s[|s| - 1]
  }

  /** Falls from `start`, ends at `last`, and leaves no value out in between. */
  predicate Staircase(s: seq<int>, start: int, last: int) {
    && s != [] && s[0] == start && s[|s| - 1] == last
    && forall k :: 0 < k < |s| ==> s[k - 1] - 1 <= s[k] <= s[k - 1]
  }

  /** The share of the amount that should be dealt once value `i` is done with. */
  function Share(amount: nat, start: int, i: int): int
    requires 0 < i <= start
  {
    ((start + 1 - i) * amount) / start
  }

  /** How far a total is from the share, relative to the share. */
  function Distance(total: int, share: int): real
    requires share != 0
  {
    AbsReal(1.0 - total as real / share as real)
  }

  lemma DistanceScaled(total: int, share: int)
    requires share > 0
    ensures Distance(total, share) * share as real == Abs(share - total) as real
  {
    var m := share as real;
    assert (total as real / m) * m == total as real;
    assert (1.0 - total as real / m) * m == m - total as real;
  }

  /** Which of two totals is closer can be told without dividing. */
  lemma CloserInIntegers(sum: int, i: int, share: int)
    requires share > 0 && i > 0
    ensures Distance(sum + i, share) < Distance(sum, share) <==> 2 * (share - sum) > i
    ensures Distance(sum + i, share) == Distance(sum, share) <==> 2 * (share - sum) == i
  {
    hide Distance, Abs;
    var m, x, y := share as real, Distance(sum + i, share), Distance(sum, share);
    var d := share - sum;
    var a, b := Abs(d - i), Abs(d);
    assert share - (sum + i) == d - i;
    DistanceScaled(sum + i, share);
    DistanceScaled(sum, share);
    ScaledToIntegers(x, y, m, a, b);
    AbsOrder(d, i);
  }

  lemma ScaledToIntegers(x: real, y: real, m: real, a: int, b: int)
    requires m > 0.0 && x * m == a as real && y * m == b as real
    ensures x < y <==> a < b
    ensures x == y <==> a == b
  {
    ScaledOrder(x, y, m);
    RealOrder(a, b);
  }

  lemma RealOrder(a: int, b: int)
    ensures a as real < b as real <==> a < b
    ensures a as real == b as real <==> a == b
  {
  }

  lemma AbsOrder(d: int, i: int)
    requires i > 0
    ensures Abs(d - i) < Abs(d) <==> 2 * d > i
    ensures Abs(d - i) == Abs(d) <==> 2 * d == i
  {
  }

  lemma ScaledOrder(x: real, y: real, m: real)
    requires m > 0.0
    ensures x < y <==> x * m < y * m
    ensures x == y <==> x * m == y * m
  {
    assert (y - x) * m == y * m - x * m;
    Scaled(y - x, m);
    Scaled(x - y, m);
  }

  lemma Scaled(d: real, m: real)
    requires m > 0.0
    ensures d > 0.0 ==> d * m > 0.0
  {
  }

  function Triangle(n: nat): nat {
    if n == 0 then 0 else n + Triangle(n - 1)
  }

  lemma {:induction false} TriangleClosed(n: nat)
    ensures 2 * Triangle(n) == n * (n + 1)
  {
    if n > 0 {
      TriangleClosed(n - 1);
      assert n * (n + 1) == (n - 1) * n + 2 * n;
    }
  }

  /**
    If the amount is enough for one of each value, then stopping near the share of value `i` leaves
    enough for one of each smaller value.
   */
  lemma ShareLeavesRoom(amount: nat, start: nat, i: nat)
    requires 0 < i <= start && Triangle(start) <= amount
    ensures Share(amount, start, i) + i / 2 + Triangle(i - 1) <= amount
  {
    var med := Share(amount, start, i);
    TriangleClosed(start);
    TriangleClosed(i - 1);
    ShareBelow(amount, start, i);
    hide Share, Triangle;
    HalfOfProduct(amount, start, i, amount - med);
  }

  lemma ShareBelow(amount: nat, start: nat, i: nat)
    requires 0 < i <= start
    ensures start * (amount - Share(amount, start, i)) >= (i - 1) * amount
  {
    var x := (start + 1 - i) * amount;
    DivideBelow(x, start);
    var med := x / start;
    Distribute(start, amount, i);
    assert start * (amount - med) == start * amount - start * med;
  }

  lemma DivideBelow(x: int, d: int)
    requires d > 0
    ensures d * (x / d) <= x
  {
  }

  lemma Distribute(start: int, amount: int, i: int)
    ensures start * amount - (start + 1 - i) * amount == (i - 1) * amount
  {
  }

  lemma HalfOfProduct(amount: nat, start: nat, i: nat, rest: int)
    requires 0 < i <= start && start * (start + 1) <= 2 * amount
    requires start * rest >= (i - 1) * amount
    ensures rest >= i / 2 + ((i - 1) * i) / 2
  {
    RestBound(amount, start, i - 1, rest);
    hide Times;
    AtLeastNext(i, start);
    Halves(rest, (i - 1) * i, i);
  }

  lemma AtLeastNext(i: nat, start: nat)
    requires 0 < i <= start
    ensures (i - 1) * (start + 1) >= (i - 1) * i + (i - 1)
  {
    MulMonotone(i - 1, i + 1, start + 1);
    NextProduct(i);
  }

  lemma NextProduct(i: nat)
    ensures (i - 1) * (i + 1) == (i - 1) * i + (i - 1)
  {
  }

  lemma Halves(rest: int, p: int, i: nat)
    requires i > 0 && 2 * rest >= p + (i - 1)
    ensures rest >= i / 2 + p / 2
  {
  }

  /** Products that are not to be multiplied out. */
  function Times(a: int, b: int): int {
    a * b
  }

  lemma RestBound(amount: nat, start: nat, a: nat, rest: int)
    requires start > 0 && start * (start + 1) <= 2 * amount && start * rest >= a * amount
    ensures 2 * rest >= a * (start + 1)
  {
    TimesBound(amount, start, a, rest);
  }

  lemma TimesBound(amount: nat, start: nat, a: nat, rest: int)
    requires start > 0 && Times(start, start + 1) <= 2 * amount && Times(start, rest) >= Times(a, amount)
    ensures 2 * rest >= Times(a, start + 1)
  {
    hide Times;
    TimesMonotone(a, Times(start, start + 1), 2 * amount);
    TimesDouble(a, amount);
    TimesDouble(start, rest);
    TimesExchange(a, start, start + 1);
    TimesCancel(start, Times(a, start + 1), 2 * rest);
  }

  lemma TimesMonotone(a: int, x: int, y: int)
    requires a >= 0 && x <= y
    ensures Times(a, x) <= Times(a, y)
  {
    MulMonotone(a, x, y);
  }

  lemma TimesDouble(a: int, b: int)
    ensures Times(a, 2 * b) == 2 * Times(a, b)
  {
  }

  lemma TimesExchange(a: int, b: int, c: int)
    ensures Times(a, Times(b, c)) == Times(b, Times(a, c))
  {
  }

  lemma TimesCancel(a: int, x: int, y: int)
    requires a > 0 && Times(a, x) <= Times(a, y)
    ensures x <= y
  {
    CancelLeft(a, x, y);
  }

  lemma MulMonotone(a: int, x: int, y: int)
    requires a >= 0 && x <= y
    ensures a * x <= a * y
  {
  }

  lemma CancelLeft(a: int, x: int, y: int)
    requires a > 0 && a * x <= a * y
    ensures x <= y
  {
    assert a * (x - y) == a * x - a * y;
    Positive(a, x - y);
  }

  lemma Positive(a: int, d: int)
    requires a > 0
    ensures d > 0 ==> a * d > 0
  {
  }

  /**
    Every value from `start` down to 1 occurs, in falling order.  The values add up to the amount
    exactly when the amount is at least one of each -- whichever way the floating-point loop test
    resolves a tie.
   */
  method GenerateDamageList(amount: int, start: int) returns (list: seq<int>)
    ensures start <= 0 ==> list == []
    ensures start > 0 ==> Staircase(list, start, 1)
    ensures start > 0 ==> (Sum(list) == Abs(amount) <==> Triangle(start) <= Abs(amount))
    ensures start > 0 ==> Sum(list) >= Abs(amount)
  {
    hide Sum, Staircase, Share;
    list := [];
    NothingSummed();
    var sum, amount' := 0, Abs(amount);
    var i := start;
    while i > 0
      invariant if start > 0 then 0 <= i <= start else i == start
      invariant if i == start then list == [] else Staircase(list, start, i + 1)
      invariant sum == Sum(list)
      invariant start > 0 ==> sum >= Triangle(start) - Triangle(i)
      invariant start > 0 && Triangle(start) <= amount' ==> sum + Triangle(i) <= amount'
      invariant start > 0 && i == 0 ==> sum >= amount'
    {
      var med := Share(amount', start, i);
      ShareNatural(amount', start, i);
      sum, list := DealValue(sum, list, start, i, med);
      if Triangle(start) <= amount' {
        ShareLeavesRoom(amount', start, i);
      }
      i := i - 1;
    }
  }

  lemma NothingSummed()
    ensures Sum([]) == 0
  {
  }

  lemma ShareNatural(amount: nat, start: nat, i: nat)
    requires 0 < i <= start
    ensures Share(amount, start, i) >= 0
    ensures i == 1 ==> Share(amount, start, i) == amount
  {
    FullShare(amount, start);
    Nonnegative(start + 1 - i, amount);
  }

  lemma Nonnegative(x: nat, y: nat)
    ensures x * y >= 0
  {
  }

  /** One value: dealt once, and again as long as that brings the total closer to the share. */
  method DealValue(sum: int, list: seq<int>, start: int, i: int, med: int) returns (sum': int, list': seq<int>)
    requires 0 < i <= start && med >= 0 && sum == Sum(list)
    requires if i == start then list == [] else Staircase(list, start, i + 1)
    ensures Staircase(list', start, i) && sum' == Sum(list')
    ensures sum' >= sum + i && (sum' == sum + i || sum' <= med + i / 2)
    ensures med > 0 ==> 2 * (med - sum') <= i
  {
    hide Sum;
    sum', list' := Push(sum, list, i);
    var more := Again(sum', i, med);
    while more
      invariant Staircase(list', start, i) && sum' == Sum(list')
      invariant sum' >= sum + i && (sum' == sum + i || sum' <= med + i / 2)
      invariant more ==> med > 0 && 2 * (med - sum') >= i
      invariant !more && med > 0 ==> 2 * (med - sum') <= i
      decreases med - sum'
    {
      sum', list' := Push(sum', list', i);
      more := Again(sum', i, med);
    }
  }

  lemma FullShare(amount: nat, start: nat)
    requires start > 0
    ensures Share(amount, start, 1) == amount
  {
    Quotient(amount, start);
  }

  lemma Quotient(x: int, d: int)
    requires d > 0
    ensures (d * x) / d == x
  {
    var q, r := (d * x) / d, (d * x) % d;
    assert d * (x - q) == r;
    Positive(d, x - q - 1);
    Positive(d, q - x);
    assert d * (x - q - 1) == r - d;
    assert d * (q - x) == -r;
  }

  method Push(sum: int, list: seq<int>, i: int) returns (sum': int, list': seq<int>)
    requires sum == Sum(list)
    ensures sum' == sum + i == Sum(list') && list' == list + [i]
  {
    sum', list' := sum + i, list + [i];
    assert list'[..|list|] == list;
  }

  /** The test at the end of the inner loop; a share of nothing makes both distances infinite. */
  method Again(sum: int, i: int, med: int) returns (more: bool)
    requires i > 0 && med >= 0
    ensures more ==> med > 0 && 2 * (med - sum) >= i
    ensures !more && med > 0 ==> 2 * (med - sum) <= i
  {
    if med == 0 {
      return false;
    }
    CloserInIntegers(sum, i, med);
    var x1, x2 := Distance(sum + i, med), Distance(sum, med);
    if x1 == x2 {
      more := *;
    } else {
      more := x1 < x2;
    }
  }

  // ---------------------------------------------------------------- the condition that uses it

  /** ceil(amount / 20), at least 1 */
  function DefaultStart(amount: nat): nat {
    if amount == 0 then 1 else (amount + 19) / 20
  }

  /** Left to itself, the condition deals its exact amount up to 760 (and for 780), and more above. */
  lemma DefaultStartExact(amount: nat)
    requires amount > 0
    ensures Triangle(DefaultStart(amount)) <= amount <==> amount <= 760 || amount == 780
  {
    var s := DefaultStart(amount);
    assert 20 * (s - 1) < amount <= 20 * s;
    TriangleClosed(s);
    hide Triangle;
    if s <= 38 {
      ProductSign(s - 1, 38 - s);
      assert (s - 1) * (38 - s) == 40 * s - 38 - s * (s + 1);
    } else if s == 39 {
      assert s * (s + 1) == 1560;
    } else {
      MulMonotone(s, 41, s + 1);
    }
  }

  lemma ProductSign(x: int, y: int)
    requires x >= 0 && y >= 0
    ensures x * y >= 0
  {
  }

  function Values(s: seq<Interval<int>>): seq<int> {
    seq(|s|, k requires 0 <= k < |s| => -s[k].value)
  }

  class ConditionDamage {
    var ticks: int
    var damageList: seq<Interval<int>>
    var tickInterval: nat
    var periodDamage: int
    var minDamage: nat
    var maxDamage: nat
    var startDamage: nat

    /** Adds equal rounds; the condition lasts as long as all its rounds together. */
    method AddDamage(rounds: int, time: nat, value: int) returns (ok: bool)
      modifies this`ticks, this`damageList, this`tickInterval, this`periodDamage
      ensures rounds == -1 ==>
                && ok && ticks == -1 && periodDamage == value && tickInterval == time && damageList == old(damageList)
      ensures rounds != -1 ==>
                unchanged(this`periodDamage) && unchanged(this`tickInterval) && (ok <==> periodDamage <= 0)
      ensures rounds != -1 && !ok ==> unchanged(this`damageList) && unchanged(this`ticks)
      ensures rounds != -1 && ok ==>
                var n := if rounds < 0 then 0 else rounds;
                && damageList == old(damageList) + seq(n, _ => Interval(time, value, time))
                && ticks == if old(ticks) == -1 then -1 else if old(ticks) >= 0 then old(ticks) + n * time else ticks
    {
      if rounds == -1 {
        tickInterval, ticks, periodDamage := time, -1, value;
        return true;
      }
      if periodDamage > 0 {
        return false;
      }
      var i := 0;
      while i < rounds
        invariant periodDamage == old(periodDamage) && tickInterval == old(tickInterval)
        invariant 0 <= i && (rounds >= 0 ==> i <= rounds) && (rounds < 0 ==> i == 0)
        invariant damageList == old(damageList) + seq(i, _ => Interval(time, value, time))
        invariant old(ticks) == -1 ==> ticks == -1
        invariant old(ticks) >= 0 ==> ticks == old(ticks) + i * time >= 0
      {
        damageList := damageList + [Interval(time, value, time)];
        if ticks != -1 {
          ticks := ticks + time;
        }
        i := i + 1;
        assert i * time == (i - 1) * time + time;
      }
      return true;
    }

    /** Draws up the rounds of a fresh condition for an amount between its bounds. */
    method Init(amount: nat) returns (ok: bool)
      requires minDamage <= amount <= maxDamage
      modifies this`ticks, this`damageList, this`tickInterval, this`periodDamage, this`startDamage
      ensures old(periodDamage != 0 || damageList != []) ==> ok && unchanged(this)
      ensures old(periodDamage == 0 && damageList == []) && amount == 0 ==> !ok && damageList == []
      ensures old(periodDamage == 0 && damageList == []) && amount > 0 ==>
                && ok && 0 < startDamage
                && Staircase(Values(damageList), startDamage, 1)
                && (Sum(Values(damageList)) == amount <==> Triangle(startDamage) <= amount)
                && (forall k :: 0 <= k < |damageList| ==>
                    damageList[k].interval == damageList[k].timeLeft == tickInterval)
                && ticks == |damageList| * tickInterval
      ensures old(periodDamage == 0 && damageList == []) && amount > 0 ==>
                startDamage == if old(startDamage) > maxDamage then maxDamage
                               else if old(startDamage) == 0 then DefaultStart(amount) else old(startDamage)
    {
      hide Staircase, Sum, Triangle;
      if periodDamage != 0 || damageList != [] {
        return true;
      }
      ticks := 0;
      if amount == 0 {
        return false;
      }
      if startDamage > maxDamage {
        startDamage := maxDamage;
      } else if startDamage == 0 {
        startDamage := DefaultStart(amount);
      }
      var list := GenerateDamageList(amount, startDamage);
      AddRounds(list);
      StaircaseNotEmpty(list, startDamage);
      return damageList != [];
    }

    /** One round for every value of a list. */
    method AddRounds(list: seq<int>)
      requires periodDamage == 0 && damageList == [] && ticks == 0
      modifies this`ticks, this`damageList, this`tickInterval, this`periodDamage
      ensures Values(damageList) == list && ticks == |list| * tickInterval
      ensures periodDamage == 0 && tickInterval == old(tickInterval)
      ensures forall k :: 0 <= k < |damageList| ==> damageList[k].interval == damageList[k].timeLeft == tickInterval
    {
      var i := 0;
      while i < |list|
        invariant 0 <= i <= |list| && periodDamage == 0 && tickInterval == old(tickInterval)
        invariant Values(damageList) == list[..i] && ticks == i * tickInterval >= 0
        invariant forall k :: 0 <= k < |damageList| ==> damageList[k].interval == damageList[k].timeLeft == tickInterval
      {
        ghost var was := damageList;
        var added := AddDamage(1, tickInterval, -list[i]);
        assert Values(damageList) == Values(was) + [list[i]];
        i := i + 1;
        assert i * tickInterval == (i - 1) * tickInterval + 1 * tickInterval;
      }
      assert list[..i] == list;
    }
  }

  /** A staircase never rises, and has every value from its first to its last. */
  lemma {:induction false} EveryValue(s: seq<int>, start: int, last: int)
    requires Staircase(s, start, last)
    ensures start >= last && (forall v :: last <= v <= start <==> v in s)
    ensures forall i, j :: 0 <= i < j < |s| ==> s[i] >= s[j]
    decreases |s|
  {
    if |s| > 1 {
      var n := |s| - 1;
      assert Staircase(s[..n], start, s[n - 1]);
      EveryValue(s[..n], start, s[n - 1]);
      assert s == s[..n] + [last];
      hide Staircase;
    } else {
      assert s == [start];
    }
  }

  lemma StaircaseNotEmpty(s: seq<int>, start: int)
    requires Staircase(s, start, 1)
    ensures s != []
  {
  }
}
