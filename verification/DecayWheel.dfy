/**
  The timing wheel for decaying items: sixteen buckets, one of which is swept every second.  A
  duration is kept in milliseconds and only looked at when the item's bucket comes round.

  This module holds the operations on wheels as values and the question when an item fires;
  `DecayGame` holds the code.
 */
module DecayWheel {
  import opened Wrappers

  const DECAY_INTERVAL := 1000
  const DECAY_BUCKETS := 16
  const ROUND := 16000  // DECAY_INTERVAL * DECAY_BUCKETS

  /** A decaying item: who it is, and how many milliseconds it still has. */
  datatype Timed = Timed(id: nat, duration: int)

  /** What items turn into when they decay, if that can decay in turn. */
  type Products = map<nat, Timed>

  /** `decaying` are the items marked as scheduled. */
  datatype Wheel = Wheel(buckets: seq<seq<Timed>>, pending: seq<Timed>, last: nat, decaying: set<nat>)

  // ---------------------------------------------------------------- the operations

  /** A scheduled item is not scheduled again. */
  function Start(w: Wheel, t: Timed): Wheel {
    if t.id in w.decaying || t.duration <= 0 then w
    else w.(pending := w.pending + [t], decaying := w.decaying + {t.id})
  }

  /** What an item turns into in the end, through stages that have no time left: something that lasts, if anything. */
  function Lasting(id: nat, products: Products, decaying: set<nat>): Option<Timed>
    decreases |products|
  {
    if id !in products then None
    else if products[id].duration > 0 || products[id].id in decaying then Some(products[id])
    else Lasting(products[id].id, products - {id}, decaying)
  }

  function StartProduct(w: Wheel, id: nat, products: Products): Wheel {
    match Lasting(id, products, w.decaying)
    case None => w
    case Some(t) => Start(w, t)
  }

  /** An item that has no time left decays at once. */
  function StartItem(w: Wheel, t: Timed, products: Products): Wheel {
    if t.id in w.decaying || t.duration > 0 then Start(w, t) else StartProduct(w, t.id, products)
  }

  datatype Fate = Dropped | Fires | Moves(bucket: nat) | Stays

  /** A whole round less, but not below nothing. */
  function Decreased(t: Timed): Timed {
    Timed(t.id, if t.duration - ROUND < 0 then 0 else t.duration - ROUND)
  }

  function FateOf(t: Timed, bucket: nat, cancelled: set<nat>): Fate {
    var left := Decreased(t).duration;
    if t.id in cancelled then Dropped
    else if left <= 0 then Fires
    else if left < ROUND then
      var newBucket := (bucket + (left + DECAY_INTERVAL / 2) / 1000) % DECAY_BUCKETS;
      if newBucket == bucket then Fires else Moves(newBucket)
    else Stays
  }

  function Append(w: Wheel, j: nat, t: Timed): Wheel
    requires j < |w.buckets|
  {
    w.(buckets := w.buckets[j := w.buckets[j] + [t]])
  }

  function SweepOne(w: Wheel, b: nat, t: Timed, cancelled: set<nat>, products: Products): (r: Wheel)
    requires |w.buckets| == DECAY_BUCKETS && b < DECAY_BUCKETS
    ensures |r.buckets| == DECAY_BUCKETS
  {
    match FateOf(t, b, cancelled)
    case Dropped => w.(decaying := w.decaying - {t.id})
    case Fires => StartProduct(w.(decaying := w.decaying - {t.id}), t.id, products)
    case Moves(j) => Append(w, j, Decreased(t))
    case Stays => Append(w, b, Decreased(t))
  }

  function SweepAll(w: Wheel, b: nat, s: seq<Timed>, cancelled: set<nat>, products: Products): (r: Wheel)
    requires |w.buckets| == DECAY_BUCKETS && b < DECAY_BUCKETS
    ensures |r.buckets| == DECAY_BUCKETS
  {
    if s == [] then w
    else SweepOne(SweepAll(w, b, s[..|s| - 1], cancelled, products), b, s[|s| - 1], cancelled, products)
  }

  function FiredIn(s: seq<Timed>, b: nat, cancelled: set<nat>): seq<nat> {
    if s == [] then [] else
    var n := |s| - 1;
    FiredIn(s[..n], b, cancelled) + if FateOf(s[n], b, cancelled).Fires? then [s[n].id] else []
  }

  function PlaceOf(duration: int, last: nat): nat
    requires duration > 0 && last < DECAY_BUCKETS
  {
    if duration >= ROUND then last else (last + 1 + duration / 1000) % DECAY_BUCKETS
  }

  function PlaceAll(w: Wheel, s: seq<Timed>): (r: Wheel)
    requires |w.buckets| == DECAY_BUCKETS && w.last < DECAY_BUCKETS
    requires forall t :: t in s ==> t.duration > 0
    ensures |r.buckets| == DECAY_BUCKETS && r.last == w.last
  {
    if s == [] then w else
    var n := |s| - 1;
    Append(PlaceAll(w, s[..n]), PlaceOf(s[n].duration, w.last), s[n])
  }

  /** What has been started since goes into the buckets. */
  function Cleanup(w: Wheel): Wheel
    requires Shaped(w)
  {
    PlaceAll(w.(pending := []), w.pending)
  }

  predicate Shaped(w: Wheel) {
    && |w.buckets| == DECAY_BUCKETS && w.last < DECAY_BUCKETS
    && forall t :: t in w.pending ==> t.duration > 0
  }

  function NextBucket(w: Wheel): nat {
    (w.last + 1) % DECAY_BUCKETS
  }

  function Fired(w: Wheel, cancelled: set<nat>): seq<nat>
    requires Shaped(w)
  {
    FiredIn(w.buckets[NextBucket(w)], NextBucket(w), cancelled)
  }

  /** The next bucket is swept. */
  function Sweep(w: Wheel, cancelled: set<nat>, products: Products): Wheel
    requires Shaped(w)
  {
    var b := NextBucket(w);
    SweepAll(w.(buckets := w.buckets[b := []], last := b), b, w.buckets[b], cancelled, products)
  }

  lemma {:induction false} SweepAllShaped(w: Wheel, b: nat, s: seq<Timed>, cancelled: set<nat>, products: Products)
    requires Shaped(w) && b < DECAY_BUCKETS
    ensures Shaped(SweepAll(w, b, s, cancelled, products))
    ensures SweepAll(w, b, s, cancelled, products).last == w.last
  {
    if s != [] {
      SweepAllShaped(w, b, s[..|s| - 1], cancelled, products);
    }
  }

  function Tick(w: Wheel, cancelled: set<nat>, products: Products): Wheel
    requires Shaped(w)
  {
    SweepAllShaped(w.(buckets := w.buckets[NextBucket(w) := []], last := NextBucket(w)),
                   NextBucket(w), w.buckets[NextBucket(w)], cancelled, products);
    Cleanup(Sweep(w, cancelled, products))
  }

  // ---------------------------------------------------------------- every item is in one place

  function Count(s: seq<Timed>, id: nat): nat {
    if s == [] then 0 else Count(s[..|s| - 1], id) + if s[|s| - 1].id == id then 1 else 0
  }

  function CountAll(buckets: seq<seq<Timed>>, id: nat): nat {
    if buckets == [] then 0 else CountAll(buckets[..|buckets| - 1], id) + Count(buckets[|buckets| - 1], id)
  }

  function Occurrences(w: Wheel, id: nat): nat {
    CountAll(w.buckets, id) + Count(w.pending, id)
  }

  function Marked(w: Wheel, id: nat): nat {
    if id in w.decaying then 1 else 0
  }

  /** The scheduled items are the ones in the buckets and the pending list, each of them there once. */
  ghost predicate Valid(w: Wheel) {
    Shaped(w) && forall id {:trigger Occurrences(w, id)} :: Occurrences(w, id) == Marked(w, id)
  }

  lemma {:induction false} CountNothing(bs: seq<seq<Timed>>, id: nat)
    requires forall j :: 0 <= j < |bs| ==> bs[j] == []
    ensures CountAll(bs, id) == 0
  {
    if bs != [] {
      CountNothing(bs[..|bs| - 1], id);
    }
  }

  lemma EmptyValid(w: Wheel)
    requires |w.buckets| == DECAY_BUCKETS && w.last < DECAY_BUCKETS && w.pending == [] && w.decaying == {}
    requires forall j :: 0 <= j < |w.buckets| ==> w.buckets[j] == []
    ensures Valid(w)
  {
    forall id {:trigger Occurrences(w, id)} ensures Occurrences(w, id) == Marked(w, id) {
      CountNothing(w.buckets, id);
    }
  }

  lemma {:induction false} CountUpdate(bs: seq<seq<Timed>>, j: nat, s: seq<Timed>, id: nat)
    requires j < |bs|
    ensures CountAll(bs[j := s], id) == CountAll(bs, id) - Count(bs[j], id) + Count(s, id)
  {
    hide Count;
    var n := |bs| - 1;
    if j < n {
      CountUpdate(bs[..n], j, s, id);
      assert bs[j := s][..n] == bs[..n][j := s];
    } else {
      assert bs[j := s][..n] == bs[..n];
    }
  }

  lemma CountAppend(s: seq<Timed>, t: Timed, id: nat)
    ensures Count(s + [t], id) == Count(s, id) + if t.id == id then 1 else 0
  {
    assert (s + [t])[..|s|] == s;
  }

  lemma AppendOccurrences(w: Wheel, j: nat, t: Timed, id: nat)
    requires j < |w.buckets|
    ensures Occurrences(Append(w, j, t), id) == Occurrences(w, id) + if t.id == id then 1 else 0
  {
    CountUpdate(w.buckets, j, w.buckets[j] + [t], id);
    CountAppend(w.buckets[j], t, id);
  }

  lemma StartOccurrences(w: Wheel, t: Timed, id: nat)
    ensures Occurrences(Start(w, t), id) - Marked(Start(w, t), id) == Occurrences(w, id) - Marked(w, id)
  {
    hide CountAll, Count;
    CountAppend(w.pending, t, id);
  }

  lemma ProductOccurrences(w: Wheel, id: nat, products: Products, k: nat)
    ensures var r := StartProduct(w, id, products);
            Occurrences(r, k) - Marked(r, k) == Occurrences(w, k) - Marked(w, k)
  {
    match Lasting(id, products, w.decaying)
    case None =>
    case Some(t) => StartOccurrences(w, t, k);
  }

  /** Sweeping an item that is in no list any more, but still marked, balances the books. */
  lemma SweepOneOccurrences(w: Wheel, b: nat, t: Timed, cancelled: set<nat>, products: Products, id: nat)
    requires |w.buckets| == DECAY_BUCKETS && b < DECAY_BUCKETS && t.id in w.decaying
    ensures var r := SweepOne(w, b, t, cancelled, products);
            Occurrences(r, id) - Marked(r, id) == Occurrences(w, id) - Marked(w, id) + if t.id == id then 1 else 0
  {
    hide CountAll, Count;
    match FateOf(t, b, cancelled)
    case Dropped =>

    case Fires =>

      ProductOccurrences(w.(decaying := w.decaying - {t.id}), t.id, products, id);
    case Moves(j) =>
      AppendOccurrences(w, j, Decreased(t), id);

    case Stays =>
      AppendOccurrences(w, b, Decreased(t), id);
  }

  lemma {:induction false} CountPrefix(s: seq<Timed>, i: nat, id: nat)
    requires i <= |s|
    ensures Count(s[..i], id) <= Count(s, id)
    decreases |s| - i
  {
    if i < |s| {
      assert s[..i + 1][..i] == s[..i];
      CountPrefix(s, i + 1, id);
    } else {
      assert s[..i] == s;
    }
  }

  /** The wheel together with the part of `s` from `i` on holds every scheduled item once. */
  ghost predicate Balanced(w: Wheel, s: seq<Timed>, i: nat)
    requires i <= |s|
  {
    forall id {:trigger Occurrences(w, id)} ::
      Occurrences(w, id) + Count(s, id) - Count(s[..i], id) == Marked(w, id)
  }

  /** During a sweep, the rest of the swept bucket is the one place outside the wheel. */
  lemma {:induction false} SweepBalanced(w: Wheel, b: nat, s: seq<Timed>, i: nat, cancelled: set<nat>,
                                         products: Products)
    requires |w.buckets| == DECAY_BUCKETS && b < DECAY_BUCKETS && i <= |s|
    requires Balanced(w, s, 0)
    ensures Balanced(SweepAll(w, b, s[..i], cancelled, products), s, i)
    decreases i
  {
    if i == 0 {
      assert s[..i] == [];
    } else {
      assert s[..i][..i - 1] == s[..i - 1];
      var r0 := SweepAll(w, b, s[..i - 1], cancelled, products);
      assert SweepAll(w, b, s[..i], cancelled, products) == SweepOne(r0, b, s[i - 1], cancelled, products);
      SweepBalanced(w, b, s, i - 1, cancelled, products);
      SweepOneBalanced(r0, b, s, i, cancelled, products);
    }
  }

  lemma SweepOneBalanced(w: Wheel, b: nat, s: seq<Timed>, i: nat, cancelled: set<nat>, products: Products)
    requires |w.buckets| == DECAY_BUCKETS && b < DECAY_BUCKETS && 0 < i <= |s|
    requires Balanced(w, s, i - 1)
    ensures Balanced(SweepOne(w, b, s[i - 1], cancelled, products), s, i)
  {
    var r, t := SweepOne(w, b, s[i - 1], cancelled, products), s[i - 1];
    hide SweepOne, Occurrences;
    assert s[..i][..i - 1] == s[..i - 1];
    forall id {:trigger Occurrences(r, id)}
      ensures Occurrences(r, id) + Count(s, id) - Count(s[..i], id) == Marked(r, id)
    {
      CountPrefix(s, i, t.id);
      assert Occurrences(w, t.id) >= 0;
      assert Occurrences(w, id) >= 0;
      SweepOneOccurrences(w, b, t, cancelled, products, id);
    }
  }

  lemma {:induction false} PlaceAllBalanced(w: Wheel, s: seq<Timed>, id: nat)
    requires Shaped(w) && forall t :: t in s ==> t.duration > 0
    ensures var r := PlaceAll(w, s);
            && Occurrences(r, id) == Occurrences(w, id) + Count(s, id)
            && r.decaying == w.decaying && r.pending == w.pending
  {
    hide Occurrences;
    if s != [] {
      var n := |s| - 1;
      PlaceAllBalanced(w, s[..n], id);
      AppendOccurrences(PlaceAll(w, s[..n]), PlaceOf(s[n].duration, w.last), s[n], id);
    }
  }

  lemma CleanupValid(w: Wheel)
    requires Valid(w)
    ensures Valid(Cleanup(w)) && Cleanup(w).pending == []
  {
    var w' := w.(pending := []);
    PlaceAllBalanced(w', w.pending, 0);
    forall id {:trigger Occurrences(Cleanup(w), id)} ensures Occurrences(Cleanup(w), id) == Marked(Cleanup(w), id) {
      PlaceAllBalanced(w', w.pending, id);
      assert Occurrences(w', id) + Count(w.pending, id) == Occurrences(w, id) == Marked(w, id);
    }
  }

  lemma SweepValid(w: Wheel, cancelled: set<nat>, products: Products)
    requires Valid(w)
    ensures Valid(Sweep(w, cancelled, products))
  {
    var b := NextBucket(w);
    var s, w' := w.buckets[b], w.(buckets := w.buckets[b := []], last := b);
    forall id {:trigger Occurrences(w', id)}
      ensures Occurrences(w', id) + Count(s, id) - Count(s[..0], id) == Marked(w', id)
    {
      CountUpdate(w.buckets, b, [], id);
      assert Occurrences(w, id) == Marked(w, id);
    }
    SweepAllShaped(w', b, s, cancelled, products);
    SweepBalanced(w', b, s, |s|, cancelled, products);
    assert s[..|s|] == s;
  }

  lemma TickValid(w: Wheel, cancelled: set<nat>, products: Products)
    requires Valid(w)
    ensures Valid(Tick(w, cancelled, products)) && Tick(w, cancelled, products).last == NextBucket(w)
  {
    SweepValid(w, cancelled, products);
    CleanupValid(Sweep(w, cancelled, products));
    SweepAllShaped(w.(buckets := w.buckets[NextBucket(w) := []], last := NextBucket(w)),
                   NextBucket(w), w.buckets[NextBucket(w)], cancelled, products);
  }

  lemma StartValid(w: Wheel, t: Timed)
    requires Valid(w)
    ensures Valid(Start(w, t))
  {
    hide Occurrences, Marked;
    forall id {:trigger Occurrences(Start(w, t), id)} ensures Occurrences(Start(w, t), id) == Marked(Start(w, t), id) {
      StartOccurrences(w, t, id);
      assert Occurrences(w, id) == Marked(w, id);
    }
  }

  // ---------------------------------------------------------------- one place per item

  lemma StartItemValid(w: Wheel, t: Timed, products: Products)
    requires Valid(w)
    ensures Valid(StartItem(w, t, products))
  {
    hide Valid, Lasting;
    StartValid(w, t);
    match Lasting(t.id, products, w.decaying)
    case None =>
    case Some(u) => StartValid(w, u);
  }

  lemma {:induction false} CountIn(s: seq<Timed>, i: nat, j: nat)
    requires i <= j < |s| && s[i].id == s[j].id
    ensures Count(s, s[i].id) >= if i < j then 2 else 1
  {
    var n := |s| - 1;
    if j < n {
      CountIn(s[..n], i, j);
    } else if i < j {
      CountIn(s[..n], i, i);
    }
  }

  lemma {:induction false} CountAllIn(bs: seq<seq<Timed>>, j: nat, k: nat, id: nat)
    requires j <= k < |bs|
    ensures CountAll(bs, id) >= Count(bs[j], id) + if j < k then Count(bs[k], id) else 0
  {
    hide Count;
    var n := |bs| - 1;
    if k < n {
      CountAllIn(bs[..n], j, k, id);
    } else if j < k {
      CountAllIn(bs[..n], j, j, id);
    }
  }

  /** Two places with the same item are the same place. */
  lemma Unique(w: Wheel, j: nat, t: Timed, k: nat, u: Timed)
    requires Valid(w) && j < DECAY_BUCKETS && k < DECAY_BUCKETS
    requires t in w.buckets[j] && u in w.buckets[k] && t.id == u.id
    ensures j == k && t == u
  {
    var x :| 0 <= x < |w.buckets[j]| && w.buckets[j][x] == t;
    var y :| 0 <= y < |w.buckets[k]| && w.buckets[k][y] == u;
    CountIn(w.buckets[j], x, x);
    CountIn(w.buckets[k], y, y);
    CountAllIn(w.buckets, if j < k then j else k, if j < k then k else j, t.id);
    assert Occurrences(w, t.id) == Marked(w, t.id);
    if j == k {
      CountIn(w.buckets[j], if x < y then x else y, if x < y then y else x);
    }
  }

  // ---------------------------------------------------------------- when an item fires

  /** How many ticks pass before bucket `b` is swept, the current tick included. */
  function Distance(b: nat, last: nat): nat
    requires b < DECAY_BUCKETS && last < DECAY_BUCKETS
  {
    if b > last then b - last else b + DECAY_BUCKETS - last
  }

  /** How many more ticks an item lives after the sweep that finds it with this duration. */
  function AfterSweep(duration: int): nat
    decreases if duration < 0 then 0 else duration
  {
    var left := duration - ROUND;
    if left <= 0 then 0
    else if left < ROUND then ((left + DECAY_INTERVAL / 2) / 1000) % DECAY_BUCKETS
    else DECAY_BUCKETS + AfterSweep(left)
  }

  function Due(b: nat, t: Timed, last: nat): nat
    requires b < DECAY_BUCKETS && last < DECAY_BUCKETS
  {
    Distance(b, last) + AfterSweep(t.duration)
  }

  lemma {:induction false} SweepAppends(w: Wheel, b: nat, s: seq<Timed>, cancelled: set<nat>, products: Products,
                                        j: nat)
    requires |w.buckets| == DECAY_BUCKETS && b < DECAY_BUCKETS && j < DECAY_BUCKETS
    ensures w.buckets[j] <= SweepAll(w, b, s, cancelled, products).buckets[j]
  {
    if s != [] {
      SweepAppends(w, b, s[..|s| - 1], cancelled, products, j);
    }
  }

  /** A swept item that lives on is found again, with its new duration, in the bucket it was sent to. */
  lemma {:induction false} SweepSends(w: Wheel, b: nat, s: seq<Timed>, cancelled: set<nat>, products: Products,
                                      t: Timed)
    requires |w.buckets| == DECAY_BUCKETS && b < DECAY_BUCKETS && t in s
    ensures var r := SweepAll(w, b, s, cancelled, products);
            match FateOf(t, b, cancelled)
            case Moves(j) => Decreased(t) in r.buckets[j]
            case Stays => Decreased(t) in r.buckets[b]
            case _ => true
  {
    var n := |s| - 1;
    if t in s[..n] {
      SweepSends(w, b, s[..n], cancelled, products, t);
    }
  }

  lemma {:induction false} PlaceAppends(w: Wheel, s: seq<Timed>, j: nat)
    requires |w.buckets| == DECAY_BUCKETS && w.last < DECAY_BUCKETS && j < DECAY_BUCKETS
    requires forall t :: t in s ==> t.duration > 0
    ensures w.buckets[j] <= PlaceAll(w, s).buckets[j]
  {
    if s != [] {
      PlaceAppends(w, s[..|s| - 1], j);
    }
  }

  lemma {:induction false} PlaceSends(w: Wheel, s: seq<Timed>, t: Timed)
    requires |w.buckets| == DECAY_BUCKETS && w.last < DECAY_BUCKETS && t in s
    requires forall t :: t in s ==> t.duration > 0
    ensures t in PlaceAll(w, s).buckets[PlaceOf(t.duration, w.last)]
  {
    var n := |s| - 1;
    if t in s[..n] {
      PlaceSends(w, s[..n], t);
    }
  }

  lemma {:induction false} FiredIff(s: seq<Timed>, b: nat, cancelled: set<nat>, id: nat)
    ensures id in FiredIn(s, b, cancelled) <==> exists t :: t in s && t.id == id && FateOf(t, b, cancelled).Fires?
  {
    if s != [] {
      var n := |s| - 1;
      FiredIff(s[..n], b, cancelled, id);
      assert forall t :: t in s <==> t in s[..n] || t == s[n];
    }
  }

  /** Where an item is after a tick that it survives. */
  function Followed(b: nat, t: Timed, swept: nat): (nat, Timed) {
    if b != swept then (b, t)
    else match FateOf(t, b, {})
         case Moves(j) => (j, Decreased(t))
         case _ => (b, Decreased(t))
  }

  lemma DueStep(b: nat, t: Timed, last: nat)
    requires b < DECAY_BUCKETS && last < DECAY_BUCKETS
    ensures var swept := (last + 1) % DECAY_BUCKETS;
            var (b', t') := Followed(b, t, swept);
            && b' < DECAY_BUCKETS
            && (Due(b, t, last) == 1 <==> b == swept && FateOf(t, b, {}).Fires?)
            && (Due(b, t, last) > 1 ==> Due(b', t', swept) == Due(b, t, last) - 1)
  {
    DistanceStep(b, last);
    if b == (last + 1) % DECAY_BUCKETS {
      DueSwept(b, t);
    } else {
      hide FateOf, AfterSweep, Distance;
    }
  }

  lemma DistanceStep(b: nat, last: nat)
    requires b < DECAY_BUCKETS && last < DECAY_BUCKETS
    ensures var swept := (last + 1) % DECAY_BUCKETS;
            if b == swept then Distance(b, last) == 1
            else Distance(b, last) > 1 && Distance(b, swept) == Distance(b, last) - 1
  {
  }

  /** In the bucket being swept an item fires, or is put where its rest will run out. */
  lemma DueSwept(b: nat, t: Timed)
    requires b < DECAY_BUCKETS
    ensures AfterSweep(t.duration) == 0 <==> FateOf(t, b, {}).Fires?
    ensures var (b', t') := Followed(b, t, b);
            AfterSweep(t.duration) > 0 ==>
                b' < DECAY_BUCKETS && Distance(b', b) + AfterSweep(t'.duration) == AfterSweep(t.duration)
    ensures Followed(b, t, b).0 < DECAY_BUCKETS
  {
  }

  /**
    One tick brings every item that is not cancelled one tick closer, and lets exactly those fire
    whose time has come.
   */
  lemma TickTracks(w: Wheel, cancelled: set<nat>, products: Products, b: nat, t: Timed)
    requires Valid(w) && b < DECAY_BUCKETS && t in w.buckets[b] && t.id !in cancelled
    ensures t.id in Fired(w, cancelled) <==> Due(b, t, w.last) == 1
    ensures var (b', t') := Followed(b, t, NextBucket(w));
            Due(b, t, w.last) > 1 ==>
              && b' < DECAY_BUCKETS && t'.id == t.id && t' in Tick(w, cancelled, products).buckets[b']
              && Due(b', t', NextBucket(w)) == Due(b, t, w.last) - 1
  {
    hide Occurrences, Due, FateOf, Tick, FiredIn;
    var s := NextBucket(w);
    DueStep(b, t, w.last);
    SameFate(t, s, cancelled);
    FiredIff(w.buckets[s], s, cancelled, t.id);
    forall u | u in w.buckets[s] && u.id == t.id ensures b == s && u == t {
      Unique(w, b, t, s, u);
    }
    if Due(b, t, w.last) > 1 {
      TickFollows(w, cancelled, products, b, t);
    }
  }

  lemma SameFate(t: Timed, b: nat, cancelled: set<nat>)
    requires t.id !in cancelled
    ensures FateOf(t, b, cancelled) == FateOf(t, b, {})
  {
  }

  lemma TickFollows(w: Wheel, cancelled: set<nat>, products: Products, b: nat, t: Timed)
    requires Shaped(w) && b < DECAY_BUCKETS && t in w.buckets[b] && t.id !in cancelled
    requires b == NextBucket(w) ==> !FateOf(t, b, {}).Fires?
    ensures var (b', t') := Followed(b, t, NextBucket(w));
            b' < DECAY_BUCKETS && t'.id == t.id && t' in Tick(w, cancelled, products).buckets[b']
  {
    var s := NextBucket(w);
    var w0 := w.(buckets := w.buckets[s := []], last := s);
    var w1 := Sweep(w, cancelled, products);
    var (b', t') := Followed(b, t, s);
    SweepAllShaped(w0, s, w.buckets[s], cancelled, products);
    if b == s {
      SweepSends(w0, s, w.buckets[s], cancelled, products, t);
    } else {
      SweepAppends(w0, s, w.buckets[s], cancelled, products, b);
    }
    PlaceAppends(w1.(pending := []), w1.pending, b');
  }

  /** The swept bucket keeps only items of its own that have a whole round to go. */
  lemma {:induction false} SweptBucketNotFilled(w: Wheel, b: nat, s: seq<Timed>, cancelled: set<nat>,
                                                products: Products, u: Timed)
    requires |w.buckets| == DECAY_BUCKETS && b < DECAY_BUCKETS
    requires u in SweepAll(w, b, s, cancelled, products).buckets[b]
    ensures u in w.buckets[b] || exists t :: t in s && FateOf(t, b, cancelled).Stays? && u == Decreased(t)
  {
    if s != [] {
      var n := |s| - 1;
      if u in SweepAll(w, b, s[..n], cancelled, products).buckets[b] {
        SweptBucketNotFilled(w, b, s[..n], cancelled, products, u);
      } else {
        assert s[n] in s && FateOf(s[n], b, cancelled).Stays? && u == Decreased(s[n]);
      }
    }
  }

  // ---------------------------------------------------------------- whole runs

  /** What happens to the wheel: the timer, an item starting to decay, a cleanup in between. */
  datatype Event = Timer(cancelled: set<nat>, products: Products) | Starting(t: Timed, stages: Products) | Flush

  function Next(w: Wheel, e: Event): Wheel
    requires Shaped(w)
  {
    match e
    case Timer(cancelled, products) => Tick(w, cancelled, products)
    case Starting(t, stages) => StartItem(w, t, stages)
    case Flush => Cleanup(w)
  }

  lemma NextValid(w: Wheel, e: Event)
    requires Valid(w)
    ensures Valid(Next(w, e))
  {
    match e
    case Timer(cancelled, products) => TickValid(w, cancelled, products);
    case Starting(t, stages) => StartItemValid(w, t, stages);
    case Flush => CleanupValid(w);
  }

  function TimerCount(es: seq<Event>): nat {
    if es == [] then 0 else (if es[0].Timer? then 1 else 0) + TimerCount(es[1..])
  }

  predicate Cancels(es: seq<Event>, id: nat) {
    exists e :: e in es && e.Timer? && id in e.cancelled
  }

  /** The tick, counted from now, at which an item first fires in a run. */
  ghost function FiringTick(w: Wheel, es: seq<Event>, id: nat): Option<nat>
    requires Valid(w)
    decreases es
  {
    if es == [] then None else
    NextValid(w, es[0]);
    var later := FiringTick(Next(w, es[0]), es[1..], id);
    if es[0].Timer? then
      if id in Fired(w, es[0].cancelled) then Some(1)
      else if later.Some? then Some(later.value + 1) else None
    else later
  }

  /** Nothing but ticks brings an item closer to firing. */
  lemma OtherEventsKeep(w: Wheel, e: Event, b: nat, t: Timed)
    requires Valid(w) && b < DECAY_BUCKETS && t in w.buckets[b] && !e.Timer?
    ensures t in Next(w, e).buckets[b] && Next(w, e).last == w.last
  {
    if e.Flush? {
      PlaceAppends(w.(pending := []), w.pending, b);
    }
  }

  /** Whatever else goes on, a scheduled item fires at its tick, and not before. */
  lemma {:induction false} FiresWhenDue(w: Wheel, es: seq<Event>, b: nat, t: Timed)
    requires Valid(w) && b < DECAY_BUCKETS && t in w.buckets[b] && !Cancels(es, t.id)
    ensures FiringTick(w, es, t.id) ==
            if TimerCount(es) >= Due(b, t, w.last) then Some(Due(b, t, w.last)) else None
    decreases es
  {
    hide Due, Tick, Fired;
    DueStep(b, t, w.last);
    DuePositive(b, t, w.last);
    if es != [] {
      var e, rest := es[0], es[1..];
      NextValid(w, e);
      assert !Cancels(rest, t.id);
      if e.Timer? {
        assert e in es;
        TickTracks(w, e.cancelled, e.products, b, t);
        TickValid(w, e.cancelled, e.products);
        if Due(b, t, w.last) > 1 {
          var (b', t') := Followed(b, t, NextBucket(w));
          FiresWhenDue(Next(w, e), rest, b', t');
        }
      } else {
        OtherEventsKeep(w, e, b, t);
        FiresWhenDue(Next(w, e), rest, b, t);
      }
    }
  }

  lemma DuePositive(b: nat, t: Timed, last: nat)
    requires b < DECAY_BUCKETS && last < DECAY_BUCKETS
    ensures Due(b, t, last) >= 1
  {
  }

  // ---------------------------------------------------------------- the delay in numbers

  /** The number of ticks between being placed and firing. */
  function Delay(duration: nat): nat {
    if duration < ROUND then 1 + duration / 1000
    else DECAY_BUCKETS * (duration / ROUND) + ((duration % ROUND + 500) / 1000) % DECAY_BUCKETS
  }

  lemma {:induction false} AfterSweepDelay(duration: nat)
    requires duration >= ROUND
    ensures DECAY_BUCKETS + AfterSweep(duration) == Delay(duration)
    decreases duration
  {
    if duration >= 2 * ROUND {
      AfterSweepDelay(duration - ROUND);
      assert (duration - ROUND) / ROUND == duration / ROUND - 1;
      assert (duration - ROUND) % ROUND == duration % ROUND;
    }
  }

  lemma PlacedDue(id: nat, duration: nat, last: nat)
    requires duration > 0 && last < DECAY_BUCKETS
    ensures Due(PlaceOf(duration, last), Timed(id, duration), last) == Delay(duration)
  {
    if duration >= ROUND {
      AfterSweepDelay(duration);
    }
  }

  /** An item that is placed fires exactly `Delay(duration)` ticks later, in every run. */
  lemma PlacedFiresExactly(w: Wheel, es: seq<Event>, t: Timed)
    requires Valid(w) && t in w.pending && !Cancels(es, t.id)
    ensures Valid(Cleanup(w))
    ensures FiringTick(Cleanup(w), es, t.id) ==
            if TimerCount(es) >= Delay(t.duration) then Some(Delay(t.duration)) else None
  {
    CleanupValid(w);
    PlaceSends(w.(pending := []), w.pending, t);
    PlacedDue(t.id, t.duration, w.last);
    var b := PlaceOf(t.duration, w.last);
    assert b < DECAY_BUCKETS;
    FiresWhenDue(Cleanup(w), es, b, t);
  }

  // ---------------------------------------------------------------- from the start to the end

  /** How many ticks of a run come before the pending items are placed for good, though the first does that, too. */
  function Wait(es: seq<Event>): nat {
    if es == [] || es[0].Flush? then 0 else if es[0].Timer? then 1 else Wait(es[1..])
  }

  lemma OtherEventsPend(w: Wheel, e: Event, t: Timed)
    requires Valid(w) && t in w.pending && e.Starting?
    ensures t in Next(w, e).pending
  {
    hide Valid;
  }

  lemma {:induction false} SweepPends(w: Wheel, b: nat, s: seq<Timed>, cancelled: set<nat>, products: Products,
                                      t: Timed)
    requires |w.buckets| == DECAY_BUCKETS && b < DECAY_BUCKETS && t in w.pending
    ensures t in SweepAll(w, b, s, cancelled, products).pending
  {
    if s != [] {
      SweepPends(w, b, s[..|s| - 1], cancelled, products, t);
    }
  }

  /** What is pending is in no bucket, so a tick does not let it fire. */
  lemma PendingSilent(w: Wheel, cancelled: set<nat>, t: Timed)
    requires Valid(w) && t in w.pending
    ensures t.id !in Fired(w, cancelled)
  {
    hide FateOf;
    var b := NextBucket(w);
    FiredIff(w.buckets[b], b, cancelled, t.id);
    if u :| u in w.buckets[b] && u.id == t.id {
      var x :| 0 <= x < |w.buckets[b]| && w.buckets[b][x] == u;
      var y :| 0 <= y < |w.pending| && w.pending[y] == t;
      assert Occurrences(w, t.id) == Marked(w, t.id);
      CountIn(w.buckets[b], x, x);
      CountIn(w.pending, y, y);
      CountAllIn(w.buckets, b, b, t.id);
    }
  }

  /** An item that has been started fires in every run, `Delay(duration)` ticks after it is placed. */
  lemma {:induction false} PendingFires(w: Wheel, es: seq<Event>, t: Timed)
    requires Valid(w) && t in w.pending && !Cancels(es, t.id)
    ensures var n := Wait(es) + Delay(t.duration);
            FiringTick(w, es, t.id) == if TimerCount(es) >= n then Some(n) else None
    decreases es
  {
    hide Tick, Fired, Sweep, Cleanup, Delay, Occurrences;
    if es != [] {
      var e, rest := es[0], es[1..];
      NextValid(w, e);
      assert !Cancels(rest, t.id);
      match e
      case Flush =>
        PlacedFiresExactly(w, rest, t);
      case Starting(u, stages) =>
        OtherEventsPend(w, e, t);
        PendingFires(Next(w, e), rest, t);
      case Timer(cancelled, products) =>
        PendingSilent(w, cancelled, t);
        TickPlaces(w, cancelled, products, t);
        PlacedFiresExactly(Sweep(w, cancelled, products), rest, t);
    } else {
      DelayPositive(t.duration);
    }
  }

  lemma DelayPositive(duration: nat)
    ensures Delay(duration) > 0
  {
  }

  lemma TickPlaces(w: Wheel, cancelled: set<nat>, products: Products, t: Timed)
    requires Valid(w) && t in w.pending
    ensures Valid(Sweep(w, cancelled, products)) && t in Sweep(w, cancelled, products).pending
    ensures Tick(w, cancelled, products) == Cleanup(Sweep(w, cancelled, products))
  {
    SweepValid(w, cancelled, products);
    var b := NextBucket(w);
    SweepPends(w.(buckets := w.buckets[b := []], last := b), b, w.buckets[b], cancelled, products, t);
  }

  /** Whatever starts to decay with time left, and is not decaying already, fires. */
  lemma StartedFires(w: Wheel, es: seq<Event>, t: Timed, stages: Products)
    requires Valid(w) && t.id !in w.decaying && t.duration > 0 && !Cancels(es, t.id)
    ensures var w', n := Next(w, Starting(t, stages)), Wait(es) + Delay(t.duration);
            && Valid(w') && t.id in w'.decaying
            && FiringTick(w', es, t.id) == if TimerCount(es) >= n then Some(n) else None
  {
    hide Wait, Delay, Occurrences;
    var w' := Next(w, Starting(t, stages));
    NextValid(w, Starting(t, stages));
    assert w'.pending == w.pending + [t];
    PendingFires(w', es, t);
  }

  /** An item without time left decays at once, through all stages of its kind, to one that is scheduled. */
  lemma StagesStart(w: Wheel, t: Timed, stages: Products, path: seq<nat>, end: Timed)
    requires t.id !in w.decaying && t.duration <= 0 && Shaped(w)
    requires Stages(path, stages, w.decaying) && path[0] == t.id && path[|path| - 1] in stages
    requires end == stages[path[|path| - 1]] && end.duration > 0 && end.id !in w.decaying
    ensures Next(w, Starting(t, stages)) == w.(pending := w.pending + [end], decaying := w.decaying + {end.id})
  {
    hide Stages, Shaped, Lasting;
    StagesPassed(path, stages, w.decaying);
  }

  /** And what comes of it fires. */
  lemma StagesFire(w: Wheel, es: seq<Event>, t: Timed, stages: Products, path: seq<nat>, end: Timed)
    requires Valid(w) && t.id !in w.decaying && t.duration <= 0
    requires Stages(path, stages, w.decaying) && path[0] == t.id && path[|path| - 1] in stages
    requires end == stages[path[|path| - 1]] && end.duration > 0 && end.id !in w.decaying && !Cancels(es, end.id)
    ensures var w', n := Next(w, Starting(t, stages)), Wait(es) + Delay(end.duration);
            && Valid(w') && end.id in w'.decaying
            && FiringTick(w', es, end.id) == if TimerCount(es) >= n then Some(n) else None
  {
    StagesStart(w, t, stages, path, end);
    NextValid(w, Starting(t, stages));
    hide *;
    var w' := w.(pending := w.pending + [end], decaying := w.decaying + {end.id});
    assert w'.pending[|w.pending|] == end;
    PendingFires(w', es, end);
  }

  /** A second start of an item that is decaying changes nothing. */
  lemma StartedOnce(w: Wheel, t: Timed, stages: Products)
    requires t.id in w.decaying
    ensures StartItem(w, t, stages) == w
  {
  }

  lemma {:induction false} LastingIsProduct(id: nat, products: Products, decaying: set<nat>)
    ensures var r := Lasting(id, products, decaying);
            r.Some? ==> exists k :: k in products && products[k] == r.value
    decreases |products|
  {
    if id in products && products[id].duration <= 0 && products[id].id !in decaying {
      LastingIsProduct(products[id].id, products - {id}, decaying);
    }
  }

  /** Different items, each of which turns into the next, with no time left and not decaying. */
  predicate Stages(path: seq<nat>, products: Products, decaying: set<nat>)
    decreases |path|
  {
    && path != [] && path[0] in products && path[0] !in path[1..]
    && (|path| > 1 ==>
          && products[path[0]].id == path[1] && products[path[0]].duration <= 0 && path[1] !in decaying
          && Stages(path[1..], products, decaying))
  }

  lemma {:induction false} StagesWithout(path: seq<nat>, products: Products, decaying: set<nat>, id: nat)
    requires Stages(path, products, decaying) && id !in path
    ensures Stages(path, products - {id}, decaying)
    decreases |path|
  {
    if |path| > 1 {
      StagesWithout(path[1..], products, decaying, id);
    }
  }

  /** Stages without time left are passed through, to the first that has some or is decaying already, or to nothing. */
  lemma {:induction false} StagesPassed(path: seq<nat>, products: Products, decaying: set<nat>)
    requires Stages(path, products, decaying) && path[|path| - 1] in products
    ensures var end, r := products[path[|path| - 1]], Lasting(path[0], products, decaying);
            && (end.duration > 0 || end.id in decaying ==> r == Some(end))
            && (end.duration <= 0 && end.id !in decaying && (end.id !in products || end.id in path) ==> r == None)
    decreases |path|
  {
    if |path| > 1 {
      var rest := path[1..];
      assert rest[|rest| - 1] == path[|path| - 1] && path[|path| - 1] in rest;
      StagesWithout(rest, products, decaying, path[0]);
      StagesPassed(rest, products - {path[0]}, decaying);
    }
  }

  /** Until it is there, nothing else with the identity of a product is started in its place. */
  lemma {:induction false} SweepStarts(w: Wheel, b: nat, s: seq<Timed>, cancelled: set<nat>, products: Products,
                                       id: nat)
    requires |w.buckets| == DECAY_BUCKETS && b < DECAY_BUCKETS && id in products && products[id].duration > 0
    requires products[id].id != id ==> products[id].id !in w.decaying
    requires forall k :: k in products && k != id ==> products[k].id != products[id].id
    ensures var r, p := SweepAll(w, b, s, cancelled, products), products[id];
            p in r.pending || (id !in FiredIn(s, b, cancelled) && (p.id != id ==> p.id !in r.decaying))
  {
    if s != [] {
      var n := |s| - 1;
      SweepStarts(w, b, s[..n], cancelled, products, id);
      var r := SweepAll(w, b, s[..n], cancelled, products);
      hide FateOf;
      if FateOf(s[n], b, cancelled).Fires? {
        LastingIsProduct(s[n].id, products, r.decaying - {s[n].id});
      }
    }
  }

  /** What a fired item turns into is scheduled in turn, and fires when its own time is over. */
  lemma ProductFires(w: Wheel, cancelled: set<nat>, products: Products, id: nat, es: seq<Event>)
    requires Valid(w) && id in Fired(w, cancelled) && id in products && products[id].duration > 0
    requires products[id].id != id ==> products[id].id !in w.decaying
    requires forall k :: k in products && k != id ==> products[k].id != products[id].id
    requires !Cancels(es, products[id].id)
    ensures var w', p := Tick(w, cancelled, products), products[id];
            && Valid(w')
            && FiringTick(w', es, p.id) == if TimerCount(es) >= Delay(p.duration) then Some(Delay(p.duration)) else None
  {
    var b := NextBucket(w);
    SweepStarts(w.(buckets := w.buckets[b := []], last := b), b, w.buckets[b], cancelled, products, id);
    SweepValid(w, cancelled, products);
    hide Cleanup, Delay, SweepAll, Occurrences;
    PlacedFiresExactly(Sweep(w, cancelled, products), es, products[id]);
  }

  /** What no longer decays when its bucket comes round does not fire, and is not scheduled any more. */
  lemma CancelledIsDropped(w: Wheel, cancelled: set<nat>, products: Products, t: Timed)
    requires Valid(w) && t.id in cancelled
    ensures t.id !in Fired(w, cancelled)
    ensures t in w.buckets[NextBucket(w)] && (forall k :: k in products ==> products[k].id != t.id) ==>
              t.id !in Tick(w, cancelled, products).decaying
  {
    var b := NextBucket(w);
    FiredIff(w.buckets[b], b, cancelled, t.id);
    if t in w.buckets[b] && forall k :: k in products ==> products[k].id != t.id {
      SweepDrops(w.(buckets := w.buckets[b := []], last := b), b, w.buckets[b], cancelled, products, t.id);
      SweepValid(w, cancelled, products);
      var w' := Sweep(w, cancelled, products);
      PlaceAllBalanced(w'.(pending := []), w'.pending, t.id);
    }
  }

  lemma {:induction false} SweepDrops(w: Wheel, b: nat, s: seq<Timed>, cancelled: set<nat>, products: Products, id: nat)
    requires |w.buckets| == DECAY_BUCKETS && b < DECAY_BUCKETS && id in cancelled
    requires forall k :: k in products ==> products[k].id != id
    ensures (id !in w.decaying || exists t :: t in s && t.id == id) ==>
              id !in SweepAll(w, b, s, cancelled, products).decaying
  {
    if s != [] {
      var n := |s| - 1;
      SweepDrops(w, b, s[..n], cancelled, products, id);
      var r := SweepAll(w, b, s[..n], cancelled, products);
      if FateOf(s[n], b, cancelled).Fires? {
        LastingIsProduct(s[n].id, products, r.decaying - {s[n].id});
      }
      if t :| t in s && t.id == id && t !in s[..n] {
        assert t == s[n];
      }
    }
  }

  /** The wheel is a second off at most, except for one half-second window in each later round. */
  lemma Drift(duration: nat)
    requires duration > 0
    ensures -1000 <= 1000 * Delay(duration) - duration <= 1000
            <==> duration < ROUND || duration % ROUND < 15500
  {
    var q, r := duration / ROUND, duration % ROUND;
    assert duration == ROUND * q + r;
  }

  /** In that window an item fires almost a whole round too early. */
  lemma DriftExample()
    ensures Delay(31999) == 16
  {
  }
}
