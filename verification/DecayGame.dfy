/** The part of the game that drives the decay wheel. */
module DecayGame {
  import opened DecayWheel

  class Game {
    const decayItems: array<seq<Timed>>
    var toDecayItems: seq<Timed>
    var lastBucket: nat
    var decaying: set<nat>

    constructor ()
      ensures fresh(decayItems) && Valid(State()) && decaying == {} && lastBucket == 0
    {
      decayItems := new seq<Timed>[DECAY_BUCKETS](_ => []);
      toDecayItems, lastBucket, decaying := [], 0, {};
      new;
      EmptyValid(State());
    }

    function State(): Wheel
      reads this, decayItems
    {
      Wheel(decayItems[..], toDecayItems, lastBucket, decaying)
    }

    /** An item begins to decay: later, or at once if it has no time left. */
    method StartDecay(item: Timed, canDecay: bool, products: Products)
      modifies this
      ensures State() == if canDecay then StartItem(old(State()), item, products) else old(State())
      decreases |products|, 1
    {
      if !canDecay || item.id in decaying {
        return;
      }
      if item.duration > 0 {
        decaying := decaying + {item.id};
        toDecayItems := toDecayItems + [item];
      } else {
        InternalDecayItem(item.id, products);
      }
    }

    /** The item turns into its product, which may decay in turn, or is removed. */
    method InternalDecayItem(id: nat, products: Products)
      modifies this
      ensures State() == StartProduct(old(State()), id, products)
      decreases |products|, 0
    {
      if id in products {
        StartDecay(products[id], true, products - {id});
      }
    }

    method CleanUp()
      requires Shaped(State())
      modifies this, decayItems
      ensures State() == Cleanup(old(State()))
    {
      ghost var w := State().(pending := []);
      var i := 0;
      while i < |toDecayItems|
        invariant 0 <= i <= |toDecayItems| && toDecayItems == old(toDecayItems) && lastBucket == old(lastBucket)
        invariant State().(pending := []) == PlaceAll(w, toDecayItems[..i])
        modifies decayItems
      {
        var item := toDecayItems[i];
        assert toDecayItems[..i + 1][..i] == toDecayItems[..i];
        if item.duration >= DECAY_INTERVAL * DECAY_BUCKETS {
          decayItems[lastBucket] := decayItems[lastBucket] + [item];
        } else {
          var place := (lastBucket + 1 + item.duration / 1000) % DECAY_BUCKETS;
          decayItems[place] := decayItems[place] + [item];
        }
        i := i + 1;
      }
      assert toDecayItems[..i] == toDecayItems;
      toDecayItems := [];
    }

    /** The wheel without the part of a bucket that has not been swept yet. */
    function Front(bucket: nat, it: nat): Wheel
      requires bucket < decayItems.Length && it <= |decayItems[bucket]|
      reads this, decayItems
    {
      Wheel(decayItems[..][bucket := decayItems[bucket][..it]], toDecayItems, lastBucket, decaying)
    }

    method Erase(bucket: nat, it: nat)
      requires bucket < decayItems.Length && it < |decayItems[bucket]|
      modifies decayItems
      ensures decayItems[..] == old(decayItems[..][bucket := decayItems[bucket][..it] + decayItems[bucket][it + 1..]])
    {
      decayItems[bucket] := decayItems[bucket][..it] + decayItems[bucket][it + 1..];
    }

    /** An item whose time has come leaves its bucket and turns into its product. */
    method FireItem(bucket: nat, it: nat, products: Products)
      requires decayItems.Length == DECAY_BUCKETS && bucket < DECAY_BUCKETS && it < |decayItems[bucket]|
      modifies this, decayItems
      ensures it <= |decayItems[bucket]| && decayItems[bucket][it..] == old(decayItems[bucket][it + 1..])
      ensures var w, id := old(Front(bucket, it)), old(decayItems[bucket][it].id);
              Front(bucket, it) == StartProduct(w.(decaying := w.decaying - {id}), id, products)
    {
      var id := decayItems[bucket][it].id;
      Erase(bucket, it);
      decaying := decaying - {id};
      InternalDecayItem(id, products);
    }

    /** One item of the swept bucket: it is dropped, fires, moves on or stays. */
    method SweepItem(bucket: nat, it: nat, cancelled: set<nat>, products: Products) returns (fires: bool, next: nat)
      requires decayItems.Length == DECAY_BUCKETS && bucket < DECAY_BUCKETS && it < |decayItems[bucket]|
      modifies this, decayItems
      ensures next <= |decayItems[bucket]| && decayItems[bucket][next..] == old(decayItems[bucket][it + 1..])
      ensures Front(bucket, next)
              == SweepOne(old(Front(bucket, it)), bucket, old(decayItems[bucket][it]), cancelled, products)
      ensures fires <==> FateOf(old(decayItems[bucket][it]), bucket, cancelled).Fires?
    {
      hide StartProduct;
      var item := decayItems[bucket][it];
      var decreaseTime := DECAY_INTERVAL * DECAY_BUCKETS;
      if item.duration - decreaseTime < 0 {
        decreaseTime := item.duration;
      }
      item := Timed(item.id, item.duration - decreaseTime);
      if item.id in cancelled {
        decaying := decaying - {item.id};
        Erase(bucket, it);
        return false, it;
      }
      var dur := item.duration;
      if dur <= 0 {
        FireItem(bucket, it, products);
        return true, it;
      } else if dur < DECAY_INTERVAL * DECAY_BUCKETS {
        var newBucket := (bucket + (dur + DECAY_INTERVAL / 2) / 1000) % DECAY_BUCKETS;
        if newBucket == bucket {
          FireItem(bucket, it, products);
          return true, it;
        }
        Erase(bucket, it);
        decayItems[newBucket] := decayItems[newBucket] + [item];
        return false, it;
      }
      ghost var list := decayItems[bucket];
      decayItems[bucket] := decayItems[bucket][it := item];
      assert decayItems[bucket][..it + 1] == list[..it] + [item];
      return false, it + 1;
    }

    /** Sweeps a bucket, whose list shrinks under the loop. */
    method SweepBucket(bucket: nat, cancelled: set<nat>, products: Products) returns (fired: seq<nat>)
      requires decayItems.Length == DECAY_BUCKETS && bucket < DECAY_BUCKETS
      modifies this, decayItems
      ensures State() == SweepAll(old(Front(bucket, 0)), bucket, old(decayItems[bucket]), cancelled, products)
      ensures fired == FiredIn(old(decayItems[bucket]), bucket, cancelled)
    {
      hide SweepOne, FateOf;
      fired := [];
      ghost var s: seq<Timed>, k: nat := decayItems[bucket], 0;
      ghost var w0 := Front(bucket, 0);
      var it: nat := 0;
      while it < |decayItems[bucket]|
        invariant it <= |decayItems[bucket]| && k <= |s| && decayItems[bucket][it..] == s[k..]
        invariant Front(bucket, it) == SweepAll(w0, bucket, s[..k], cancelled, products)
        invariant fired == FiredIn(s[..k], bucket, cancelled)
        decreases |s| - k
      {
        assert s[..k + 1][..k] == s[..k];
        assert decayItems[bucket][it..][0] == s[k..][0];
        var fires;
        var id := decayItems[bucket][it].id;
        fires, it := SweepItem(bucket, it, cancelled, products);
        if fires {
          fired := fired + [id];
        }
        assert s[k..][1..] == s[k + 1..];
        k := k + 1;
      }
      assert s[..k] == s;
      assert decayItems[bucket][..it] == decayItems[bucket];
    }

    /** The timer: sweeps the next bucket, and places what was started in the meantime. */
    method CheckDecay(cancelled: set<nat>, products: Products) returns (fired: seq<nat>)
      requires decayItems.Length == DECAY_BUCKETS && Shaped(State())
      modifies this, decayItems
      ensures State() == Tick(old(State()), cancelled, products)
      ensures fired == Fired(old(State()), cancelled)
    {
      hide SweepAll, Cleanup, FiredIn;
      ghost var w := State();
      var bucket := (lastBucket + 1) % DECAY_BUCKETS;
      lastBucket := bucket;
      ghost var w0 := w.(buckets := w.buckets[bucket := []], last := bucket);
      assert Front(bucket, 0) == w0;
      SweepAllShaped(w0, bucket, w.buckets[bucket], cancelled, products);
      fired := SweepBucket(bucket, cancelled, products);
      CleanUp();
    }
  }
}
