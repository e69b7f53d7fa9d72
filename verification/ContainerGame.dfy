/** The code that moves items between containers. */
module ContainerGame {
  import opened Containment
  import opened ContainerEffects

  const INDEX_WHEREEVER := -1
  const MAP_MAX_LAYERS := 16

  datatype ReturnValue =
    | RET_NOERROR
    | RET_NOTPOSSIBLE
    | RET_CANNOTPICKUP
    | RET_THISISIMPOSSIBLE
    | RET_CONTAINERNOTENOUGHROOM
    | RET_NOTMOVEABLE

  class Game {
    ghost var items: set<Item>
    ghost var heights: Heights

    ghost function State(): World
      reads this`items, items
    {
      map x | x in items :: Cell(x.kind, x.count, x.parent, x.totalWeight, x.itemlist)
    }

    ghost predicate Sound()
      reads this, items
    {
      Valid(State(), heights)
    }

    /** A weight change is handed up from container to container. */
    method UpdateItemWeight(c: Item, diff: int)
      requires Ranked(State(), heights) && c in items
      modifies items`totalWeight
      ensures State() == Propagate(old(State()), heights, c, diff)
      decreases Above(heights, c)
    {
      ghost var s := State();
      assert s[c].parent == c.parent;
      c.totalWeight := c.totalWeight + diff;
      assert State() == AddWeight(s, c, diff);
      if c.parent != null {
        assert s[c].parent !in Above(heights, c.parent) && s[c].parent in Above(heights, c);
        UpdateItemWeight(c.parent, diff);
      }
    }

    method GetWeight(x: Item) returns (weight: int)
      requires x in items
      ensures weight == Weight(State(), x)
    {
      weight := OwnWeight(x.kind, x.count) + x.totalWeight;
    }

    method CreateItem(kind: Kind, count: nat) returns (x: Item)
      requires Sound()
      modifies this
      ensures fresh(x) && items == old(items) + {x} && !x.isContainer && x.maxSize == 0
      ensures Sound() && heights == old(heights)[x := 0]
      ensures State() == old(State())[x := Fresh(kind, count)]
    {
      hide Valid;
      ghost var s, h := State(), heights;
      x := new Item(kind, count, false, 0);
      NewKeeps(s, h, x, kind, count);
      items := items + {x};
      heights := heights[x := 0];
      assert State() == s[x := Fresh(kind, count)];
    }

    method LinkThing(c: Item, x: Item)
      requires c in items && x in items && c != x
      modifies c`itemlist, x`parent
      ensures State() == Link(old(State()), c, x)
    {
      x.parent := c;
      c.itemlist := [x] + c.itemlist;
    }

    method UnlinkThing(c: Item, x: Item, index: nat)
      requires c in items && x in items && index < |c.itemlist| && c.itemlist[index] == x != c
      modifies c`itemlist, x`parent
      ensures State() == Unlink(old(State()), c, index)
    {
      x.parent := null;
      c.itemlist := c.itemlist[..index] + c.itemlist[index + 1..];
    }

    method ChangeThing(x: Item, kind: Kind, count: nat)
      requires x in items
      modifies x`kind, x`count
      ensures State() == Change(old(State()), x, kind, count)
    {
      x.kind := kind;
      x.count := count;
    }

    lemma InState(x: Item)
      requires x in State()
      ensures x in items
    {
    }

    lemma Cells(x: Item)
      requires x in items
      ensures State().Keys == items && x in State()
      ensures State()[x] == Cell(x.kind, x.count, x.parent, x.totalWeight, x.itemlist)
    {
    }

    /** Puts an item in front of the contents of a container. */
    method AddThing(c: Item, index: int, x: Item)
      requires MayAdd(State(), heights, c, x)
      modifies this`heights, items
      ensures index >= c.maxSize ==> State() == old(State()) && heights == old(heights)
      ensures index < c.maxSize ==>
                && State() == Add(old(State()), old(heights), c, x)
                && heights == Raise(old(State()), old(heights), c, x)
      ensures Sound()
    {
      hide Linked, Ranked, Coherent, Propagate, Up, Raise, Weight, Link, Game.State;
      if index >= c.maxSize {
        return;
      }
      ghost var s, h := State(), heights;
      InState(c);
      InState(x);
      LinkLinked(s, h, c, x);
      LinkRanked(s, h, c, x);
      AddKeeps(s, h, c, x);
      var weight := GetWeight(x);
      heights := Raise(s, h, c, x);
      LinkThing(c, x);
      UpdateItemWeight(c, weight);
    }

    method IndexOfThing(c: Item, x: Item) returns (index: int)
      ensures index == -1 <==> x !in c.itemlist
      ensures index != -1 ==> index == IndexOf(c.itemlist, x)
    {
      for i := 0 to |c.itemlist|
        invariant x !in c.itemlist[..i]
      {
        if c.itemlist[i] == x {
          FirstIndex(c.itemlist, x, i);
          return i;
        }
      }
      index := -1;
    }

    /** Gives a held item another type and count. */
    method UpdateThing(c: Item, x: Item, kind: Kind, count: nat)
      requires Sound() && c in items && x in items
      modifies items
      ensures State() == if x in old(c.itemlist) then Update(old(State()), heights, x, kind, count) else old(State())
      ensures Sound()
    {
      hide Linked, Ranked, Coherent, Propagate, OwnWeight, Game.State;
      var index := IndexOfThing(c, x);
      if index == -1 {
        return;
      }
      ghost var s := State();
      Cells(c);
      Cells(x);
      HeldMayBeRemoved(s, heights, c, x);
      ChangeLinked(s, heights, x, kind, count);
      UpdateKeeps(s, heights, x, kind, count);
      var oldWeight := OwnWeight(x.kind, x.count);
      ChangeThing(x, kind, count);
      UpdateItemWeight(c, OwnWeight(kind, count) - oldWeight);
    }

    /** Takes an item out of its container altogether. */
    method TakeThing(c: Item, x: Item, index: nat)
      requires Sound() && c in items && x in c.itemlist && index == IndexOf(c.itemlist, x)
      modifies items
      ensures Sound() && State() == Remove(old(State()), heights, c, x)
    {
      hide Linked, Ranked, Coherent, Propagate, Weight, Unlink, Game.State;
      ghost var s := State();
      Cells(c);
      HeldMayBeRemoved(s, heights, c, x);
      UnlinkLinked(s, heights, c, index);
      RemoveKeeps(s, heights, c, x);
      var weight := GetWeight(x);
      UnlinkThing(c, x, index);
      UpdateItemWeight(c, -weight);
    }

    /** Takes an item out of its container, or only some of a stack. */
    method RemoveThing(c: Item, x: Item, count: nat)
      requires Sound() && c in items && x in items
      modifies items
      ensures Sound()
      ensures State() == if x !in old(c.itemlist) then old(State())
                         else if old(x.kind.stackable) && count != old(x.count)
                         then Update(old(State()), heights, x, old(x.kind),
                                     if count <= old(x.count) then old(x.count) - count else 0)
                         else Remove(old(State()), heights, c, x)
    {
      hide Valid, Update, Remove;
      Cells(c);
      var index := IndexOfThing(c, x);
      if index == -1 {
        return;
      }
      if x.kind.stackable && count != x.count {
        UpdateThing(c, x, x.kind, if count <= x.count then x.count - count else 0);
      } else {
        TakeThing(c, x, index);
      }
    }

    method SwapThing(c: Item, x: Item, index: nat)
      requires c in items && x in items && c != x && index < |c.itemlist| && c.itemlist[index] in items
      requires c.itemlist[index] != c
      modifies c`itemlist, items`parent
      ensures State() == Swap(old(State()), c, index, x)
    {
      var existing := c.itemlist[index];
      existing.parent := null;
      x.parent := c;
      c.itemlist := c.itemlist[index := x];
    }

    /** A loose item takes the place of the one at a slot. */
    method ReplaceThing(c: Item, index: nat, x: Item)
      requires MayAdd(State(), heights, c, x)
      modifies this`heights, items
      ensures index >= |old(c.itemlist)| ==> State() == old(State()) && heights == old(heights)
      ensures index < |old(c.itemlist)| ==>
                && MayReplace(old(State()), old(heights), c, index, x)
                && State() == Replace(old(State()), old(heights), c, index, x)
                && heights == Raise(old(State()), old(heights), c, x)
      ensures Sound()
    {
      hide Linked, Ranked, Coherent, Propagate, Up, Raise, Weight, Swap, Game.State;
      ghost var s, h := State(), heights;
      InState(c);
      InState(x);
      Cells(c);
      if index >= |c.itemlist| {
        return;
      }
      SlotHeld(s, h, c, index, x);
      InState(c.itemlist[index]);
      SwapLinked(s, h, c, index, x);
      SwapRanked(s, h, c, index, x);
      ReplaceKeeps(s, h, c, index, x);
      SwapKeys(s, c, index, x);
      var oldWeight := GetWeight(c.itemlist[index]);
      var weight := GetWeight(x);
      heights := Raise(s, h, c, x);
      SwapThing(c, x, index);
      UpdateItemWeight(c, weight - oldWeight);
    }

    // -------------------------------------------------------------- queries

    /** Whether an item may go into a container: above all, not into itself or anything inside it. */
    method QueryAdd(c: Item, index: int, x: Item, noLimit: bool) returns (ret: ReturnValue)
      requires Sound() && c in items && x in items
      ensures ret == if !x.kind.pickupable then RET_CANNOTPICKUP
                     else if x in Up(State(), heights, c) then RET_THISISIMPOSSIBLE
                     else if index == INDEX_WHEREEVER && !noLimit && |c.itemlist| >= c.maxSize then
                       RET_CONTAINERNOTENOUGHROOM
                     else RET_NOERROR
    {
      hide Linked, Coherent, Ranked;
      if !x.kind.pickupable {
        return RET_CANNOTPICKUP;
      }
      if x == c {
        UpStarts(State(), heights, c);
        return RET_THISISIMPOSSIBLE;
      }
      if x.isContainer {
        var inside := ClimbsTo(c, x);
        if inside {
          return RET_THISISIMPOSSIBLE;
        }
      } else {
        OnlyContainersAbove(State(), heights, c, x);
      }
      if index == INDEX_WHEREEVER && !noLimit && |c.itemlist| >= c.maxSize {
        return RET_CONTAINERNOTENOUGHROOM;
      }
      return RET_NOERROR;
    }

    /** Climbs from a container's parent upwards, looking for an item. */
    method ClimbsTo(c: Item, x: Item) returns (found: bool)
      requires Sound() && c in items && x in items && x != c
      ensures found <==> x in Up(State(), heights, c)
    {
      hide Linked, Coherent, Valid;
      ghost var s := State();
      SoundRanked();
      Cells(c);
      UpStep(s, heights, c);
      var cylinder := c.parent;
      while cylinder != null
        invariant cylinder != null ==> cylinder in items
        invariant x in Up(s, heights, c) <==> cylinder != null && x in Up(s, heights, cylinder)
        decreases if cylinder == null then {} else {cylinder} + Above(heights, cylinder)
      {
        Cells(cylinder);
        UpStep(s, heights, cylinder);
        if cylinder == x {
          return true;
        }
        cylinder := cylinder.parent;
      }
      return false;
    }

    lemma SoundRanked()
      requires Sound()
      ensures Ranked(State(), heights) && Linked(State())
    {
    }

    /** How many items of a stack, or whether a single item, still fit; at most a hundred go on a stack. */
    method QueryMaxCount(c: Item, index: int, x: Item, count: nat, noLimit: bool)
      returns (ret: ReturnValue, maxCount: nat)
      requires StacksFit(State()) && c in items && (forall y :: y in c.itemlist ==> y in items)
      ensures var free := if c.maxSize >= |c.itemlist| then c.maxSize - |c.itemlist| else 0;
              var n := if 0 <= index < |c.itemlist| && c.itemlist[index].kind == x.kind
                       then 100 - c.itemlist[index].count else 0;
              if noLimit then ret == RET_NOERROR && maxCount == (if count < 1 then 1 else count)
              else if x.kind.stackable then
                && maxCount == free * 100 + n && (ret == RET_NOERROR <==> maxCount >= count)
                && ret in {RET_NOERROR, RET_CONTAINERNOTENOUGHROOM}
              else
                && maxCount == free && (ret == RET_NOERROR <==> maxCount > 0)
                && ret in {RET_NOERROR, RET_CONTAINERNOTENOUGHROOM}
      ensures maxCount >= 0
    {
      if noLimit {
        return RET_NOERROR, if count < 1 then 1 else count;
      }
      var free := if c.maxSize >= |c.itemlist| then c.maxSize - |c.itemlist| else 0;
      if x.kind.stackable {
        var n := 0;
        if 0 <= index < |c.itemlist| {
          var destItem := c.itemlist[index];
          if destItem.kind == x.kind {
            Cells(destItem);
            n := 100 - destItem.count;
          }
        }
        maxCount := free * 100 + n;
        ret := if maxCount < count then RET_CONTAINERNOTENOUGHROOM else RET_NOERROR;
      } else {
        maxCount := free;
        ret := if maxCount == 0 then RET_CONTAINERNOTENOUGHROOM else RET_NOERROR;
      }
    }

    method QueryRemove(c: Item, x: Item, count: nat, ignoreNotMoveable: bool) returns (ret: ReturnValue)
      ensures ret == if x !in c.itemlist || count == 0 || (x.kind.stackable && count > x.count) then RET_NOTPOSSIBLE
                     else if !x.kind.moveable && !ignoreNotMoveable then RET_NOTMOVEABLE
                     else RET_NOERROR
    {
      var index := IndexOfThing(c, x);
      if index == -1 || count == 0 || (x.kind.stackable && count > x.count) {
        return RET_NOTPOSSIBLE;
      }
      if !x.kind.moveable && !ignoreNotMoveable {
        return RET_NOTMOVEABLE;
      }
      return RET_NOERROR;
    }

    /** Where an item dropped on a slot of a container really goes. */
    method QueryDestination(c: Item, index: int) returns (dest: Item, index': int, toItem: Item?)
      requires Sound() && c in items && c.isContainer
      ensures dest in items && dest.isContainer
      ensures (dest, index') == Destination(State(), c, index)
      ensures toItem == if 0 <= index' < |dest.itemlist| then dest.itemlist[index'] else null
    {
      ghost var s := State();
      Cells(c);
      SoundRanked();
      index', toItem := index, null;
      if index == 254 {
        index' := INDEX_WHEREEVER;
        if c.parent != null {
          HolderIsContainer(s, c);
          return c.parent, index', toItem;
        }
        return c, index', toItem;
      } else if index == 255 {
        return c, INDEX_WHEREEVER, toItem;
      }
      if index' >= c.maxSize {
        index' := INDEX_WHEREEVER;
      }
      if index' != INDEX_WHEREEVER {
        if 0 <= index' < |c.itemlist| {
          toItem := c.itemlist[index'];
          assert toItem in s[c].contents;
          if toItem.isContainer {
            return toItem, INDEX_WHEREEVER, null;
          }
        }
      }
      return c, index', toItem;
    }

    /** Follows destinations until one is its own; that takes one hop at most, and the limit on hops never bites. */
    method ResolveDestination(c: Item, index: int, noLimit: bool)
      returns (dest: Item, index': int, toItem: Item?, noLimit': bool, ghost hops: nat)
      requires Sound() && c in items && c.isContainer
      ensures dest in items && dest.isContainer
      ensures (dest, index') == Settled(State(), c, index) && index' < dest.maxSize
      ensures toItem == if 0 <= index' < |dest.itemlist| then dest.itemlist[index'] else null
      ensures hops <= 1 && (dest == c <==> hops == 0)
      ensures noLimit' == (noLimit && dest == c)
    {
      hide Linked, Ranked, Coherent;
      ghost var s := State();
      dest, noLimit', hops := c, noLimit, 0;
      Cells(c);
      SoundRanked();
      var sub;
      sub, index', toItem := QueryDestination(dest, index);
      DestinationSettles(s, heights, c, index);
      var floor := 0;
      while sub != dest
        invariant dest in items && dest.isContainer && sub in items && sub.isContainer
        invariant floor == hops <= 1
        invariant hops == 0 ==> dest == c && noLimit' == noLimit && (sub, index') == Destination(s, c, index)
        invariant hops == 1 ==> sub == dest != c && !noLimit' && (dest, index') == Settled(s, c, index)
        invariant toItem == if 0 <= index' < |sub.itemlist| then sub.itemlist[index'] else null
        decreases 1 - hops
      {
        dest := sub;
        noLimit' := false;
        floor, hops := floor + 1, hops + 1;
        assert floor < MAP_MAX_LAYERS;
        sub, index', toItem := QueryDestination(dest, index');
      }
    }

    // -------------------------------------------------------------- moving items

    /** Takes a whole item, or some of a stack, out of its container. */
    method Take(c: Item, x: Item, m: nat)
      requires Sound() && StacksFit(State()) && c in items && x in items && x in c.itemlist
      requires x.kind.stackable ==> m <= x.count
      modifies items
      ensures Sound() && StacksFit(State()) && State().Keys == old(State()).Keys
      ensures OthersSame(old(State()), State(), x) && x.kind == old(x.kind)
      ensures if x.kind.stackable && m != old(x.count)
              then x.parent == c && x.count == old(x.count) - m
                   && Gains(old(State()), State(), c, x.kind, -(m as int), 0)
              else x.parent == null && x.count == old(x.count)
                   && Gains(old(State()), State(), c, x.kind, -(x.count as int), -1)
      ensures !(x.kind.stackable && m != old(x.count)) ==> State() == Remove(old(State()), heights, c, x)
      ensures TakenFrom(old(State()), State(), c, x, m)
    {
      hide Valid, Gains, StacksFit, OthersSame, Update, Remove, Shelved, Game.State;
      ghost var s, h := State(), heights;
      Cells(c);
      Cells(x);
      NotLoose(s, h, c, x);
      if x.kind.stackable && m != x.count {
        TakePartFacts(s, h, c, x, x.count - m);
        UpdateShelves(s, h, x, x.kind, x.count - m, c);
      } else {
        TakeAllFacts(s, h, c, x);
        RemoveShelves(s, h, c, x, c);
      }
      RemoveThing(c, x, m);
      Cells(x);
    }

    /** Makes a stack bigger. */
    method TopUp(c: Item, x: Item, n: nat)
      requires Sound() && StacksFit(State()) && c in items && x in items && x in c.itemlist
      requires x.kind.stackable ==> x.count + n <= 100
      modifies items
      ensures Sound() && StacksFit(State()) && State().Keys == old(State()).Keys
      ensures OthersSame(old(State()), State(), x) && x.kind == old(x.kind) && x.parent == old(x.parent)
      ensures Gains(old(State()), State(), c, x.kind, n, 0) && x.count == old(x.count) + n
      ensures ToppedUp(old(State()), State(), c, x, n)
    {
      hide Valid, Gains, StacksFit, OthersSame, Update, Remove, Shelved, Game.State;
      ghost var s, h := State(), heights;
      Cells(c);
      Cells(x);
      TopUpFacts(s, h, c, x, n);
      UpdateShelves(s, h, x, x.kind, x.count + n, c);
      UpdateThing(c, x, x.kind, x.count + n);
      Cells(x);
    }

    /** Puts a loose item into a container. */
    method Put(c: Item, index: int, x: Item)
      requires MayAdd(State(), heights, c, x) && StacksFit(State()) && index < c.maxSize
      modifies this`heights, items
      ensures Sound() && StacksFit(State()) && State().Keys == old(State()).Keys
      ensures OthersSame(old(State()), State(), x) && x.parent == c
      ensures Gains(old(State()), State(), c, old(x.kind), old(x.count), 1)
      ensures State() == Add(old(State()), old(heights), c, x) && heights == Raise(old(State()), old(heights), c, x)
      ensures Shelved(old(State()), State(), c, [x], {}) && x.kind == old(x.kind) && x.count == old(x.count)
    {
      hide Valid, Gains, StacksFit, OthersSame, Add, Raise, Up, Shelved, Game.State;
      ghost var s, h := State(), heights;
      InState(c);
      InState(x);
      Cells(x);
      AddFacts(s, h, c, x);
      AddShelves(s, h, c, x);
      AddThing(c, index, x);
      Cells(x);
    }

    /** Puts a new stack into a container. */
    method PutNew(c: Item, index: int, kind: Kind, count: nat) returns (ghost x: Item)
      requires Sound() && StacksFit(State()) && c in items && c.isContainer && index < c.maxSize
      requires kind.stackable ==> count <= 100
      modifies this, items
      ensures Sound() && StacksFit(State()) && old(State()).Keys <= State().Keys
      ensures OthersSame(old(State()), State(), null)
      ensures Gains(old(State()), State(), c, kind, count, 1)
      ensures NewStack(old(State()), State(), c, x, kind, count)
    {
      hide Valid, Gains, StacksFit, OthersSame, Add, Raise, Up, Shelved, Game.State;
      ghost var s, h := State(), heights;
      Cells(c);
      var item := CreateItem(kind, count);
      x := item;
      assert forall a :: a in s ==> State()[a] == s[a];
      SameShelves(s, State(), c);
      NewFacts(s, h, x, kind, count, c);
      ghost var s1 := State();
      Cells(x);
      Put(c, index, item);
      GainsChain(s, s1, State(), c, kind, 0, count, 0, 1);
      OthersChain(s, s1, State(), x);
      ShelvedChain(s, s1, State(), c, c, [x], {});
      Cells(x);
    }

    /** How much of a stack the item at the target slot can take. */
    function Room(toItem: Item?, kind: Kind): nat
      reads toItem
    {
      if toItem != null && toItem.kind == kind && toItem.count <= 100 then 100 - toItem.count else 0
    }

    /** A single item leaves one container and becomes the first of another. */
    method TransferSingle(from: Item, dest: Item, index: int, x: Item)
      requires Sound() && StacksFit(State()) && from in items && dest in items && x in items && x in from.itemlist
      requires dest.isContainer && index < dest.maxSize && x !in Up(State(), heights, dest) && !x.kind.stackable
      modifies this`heights, items
      ensures Sound() && StacksFit(State())
      ensures Moved(old(State()), State(), from, dest, old(x.kind), old(x.count)) && x.parent == dest
      ensures forall k :: k in old(State()) ==>
                |State()[k].contents|
                == |old(State())[k].contents| - (if k == from then 1 else 0) + (if k == dest then 1 else 0)
      ensures SlotsFilled(old(State()), State(), dest, true)
      ensures SingleMoved(old(State()), State(), dest, x)
    {
      hide Valid, Gains, Moved, StacksFit, Up, Add, Raise, Remove, Shelved, OthersSame, Game.State;
      ghost var s, h := State(), heights;
      var kind := x.kind;
      Cells(x);
      Cells(dest);
      Take(from, x, 1);
      ghost var s1 := State();
      Cells(x);
      Cells(dest);
      LooseMayBeAdded(s, s1, h, dest, x);
      Put(dest, index, x);
      GainsMove(s, s1, State(), from, dest, kind, s[x].count, -1, 1);
      ShelvedChain(s, s1, State(), from, dest, [x], {x});
      OthersTwice(s, s1, State(), x);
      Cells(x);
    }

    /** Some of a stack goes to another: first onto the item at the target slot, then as a new stack. */
    method TransferStack(from: Item, dest: Item, index: int, toItem: Item?, x: Item, m: nat)
      returns (ghost added: seq<Item>)
      requires Sound() && StacksFit(State()) && from in items && dest in items && x in items && x in from.itemlist
      requires dest.isContainer && index < dest.maxSize && x.kind.stackable && 0 < m <= x.count
      requires toItem != null ==> toItem in dest.itemlist && toItem in items && toItem != x
      modifies this, items
      ensures Sound() && StacksFit(State())
      ensures Moved(old(State()), State(), from, dest, old(x.kind), m)
      ensures forall k :: k in old(State()) ==>
                |State()[k].contents|
                <= |old(State())[k].contents| + if k == dest && m > old(Room(toItem, x.kind)) then 1 else 0
      ensures SlotsFilled(old(State()), State(), dest, m > old(Room(toItem, x.kind)))
      ensures StackMoved(old(State()), State(), dest, toItem, x, m, added)
    {
      hide Valid, Gains, Moved, StacksFit, OthersSame, Remove, TakenFrom, ToppedUp, NewStack, StackMoved, Game.State;
      ghost var s := State();
      var kind := x.kind;
      ghost var room := Room(toItem, kind);
      StackCount(x);
      CellOrNull(x);
      CellOrNull(toItem);
      CellOrNull(dest);
      Take(from, x, m);
      ghost var s1, slots := State(), if m == s[x].count then -1 else 0;
      CellOrNull(toItem);
      CellOrNull(dest);
      if toItem != null {
        StillHeld(s, s1, heights, dest, toItem, x);
      }
      var n := 0;
      if toItem != null && toItem.kind == kind {
        StackCount(toItem);
        n := if 100 - toItem.count <= m then 100 - toItem.count else m;
        assert 100 - toItem.count == room;
        TopUp(dest, toItem, n);
      } else {
        GainsNothing(s1, dest, kind);
      }
      ghost var s2 := State();
      CellOrNull(dest);
      added := [];
      if m - n > 0 {
        ghost var stack := PutNew(dest, index, kind, m - n);
        added := [stack];
      } else {
        GainsNothing(s2, dest, kind);
      }
      StackPieces(s, s1, s2, State(), from, dest, toItem, x, m, n, added);
      GainsChain(s1, s2, State(), dest, kind, n, m - n, 0, if m - n > 0 then 1 else 0);
      GainsMove(s, s1, State(), from, dest, kind, m, slots, if m - n > 0 then 1 else 0);
      assert m - n > 0 ==> m > room;
    }

    /** Asks whether a move is allowed, and how much of it can be done. */
    method QueryMove(from: Item, dest: Item, slot: int, x: Item, count: nat, noLimit: bool, ignoreNotMoveable: bool)
      returns (ret: ReturnValue, retMaxCount: ReturnValue, maxCount: nat, m: nat)
      requires Sound() && StacksFit(State()) && from in items && dest in items && x in items && x in from.itemlist
      ensures ret == Refusal(State(), heights, from, dest, slot, x, count, !noLimit, ignoreNotMoveable)
      ensures ret == RET_NOERROR && x.kind.stackable ==>
                && 0 < m == Share(State(), dest, slot, x, count, !noLimit) <= x.count
                && (maxCount < count <==> m < count) && (m < count ==> retMaxCount == RET_CONTAINERNOTENOUGHROOM)
      ensures ret == RET_NOERROR ==> x !in Up(State(), heights, dest)
    {
      hide Valid, Linked, Coherent, Ranked, Up, StacksFit, Matches, Room, RoomAt, ItemAt, Refusal, Share, Game.State;
      ghost var s := State();
      SoundRanked();
      Cells(x);
      CellOrNull(dest);
      RoomIs(dest, slot, x.kind);
      ret := QueryAdd(dest, slot, x, noLimit);
      retMaxCount, maxCount, m := RET_NOERROR, 0, 0;
      RefusedAtOnce(s, heights, from, dest, slot, x, count, !noLimit, ignoreNotMoveable);
      if ret != RET_NOERROR {
        return;
      }
      retMaxCount, maxCount := QueryMaxCount(dest, slot, x, count, noLimit);
      RefusedLater(s, heights, from, dest, slot, x, count, !noLimit, ignoreNotMoveable, maxCount);
      if retMaxCount != RET_NOERROR && maxCount == 0 {
        ret := retMaxCount;
        return;
      }
      m := if x.kind.stackable && count < maxCount then count else maxCount;
      ret := QueryRemove(from, x, m, ignoreNotMoveable);
    }

    lemma RoomIs(c: Item, slot: int, kind: Kind)
      requires Sound() && StacksFit(State()) && c in items
      ensures forall y :: y in c.itemlist ==> y in items
      ensures kind.stackable ==>
                RoomAt(State(), c, slot, kind) ==
                (if 0 <= slot < |c.itemlist| && c.itemlist[slot].kind == kind then 100 - c.itemlist[slot].count else 0)
      ensures RoomAt(State(), c, slot, kind) == Room(ItemAt(State(), c, slot), kind)
      ensures Matches(State(), c, slot, kind) <==> 0 <= slot < |c.itemlist| && c.itemlist[slot].kind == kind
    {
      hide Coherent, Ranked;
      Cells(c);
      forall y | y in c.itemlist ensures y in items {
        assert y in State()[c].contents;
      }
      if 0 <= slot < |c.itemlist| {
        Cells(c.itemlist[slot]);
        StackCount(c.itemlist[slot]);
      }
    }

    /** The transfer itself, of a whole item or of some of a stack. */
    method Transfer(from: Item, dest: Item, slot: int, toItem: Item?, x: Item, m: nat)
      returns (ghost moved: nat, ghost added: seq<Item>)
      requires Sound() && StacksFit(State()) && from in items && dest in items && x in items && x in from.itemlist
      requires dest.isContainer && slot < dest.maxSize && x !in Up(State(), heights, dest)
      requires x.kind.stackable ==> 0 < m <= x.count
      requires toItem != null ==> toItem in dest.itemlist && toItem in items && toItem != x
      modifies this, items
      ensures Sound() && StacksFit(State()) && Moved(old(State()), State(), from, dest, old(x.kind), moved)
      ensures moved == if old(x.kind.stackable) then m else old(x.count)
      ensures !old(x.kind.stackable) ==> x.parent == dest
      ensures SlotsFilled(old(State()), State(), dest, !old(x.kind.stackable) || m > old(Room(toItem, x.kind)))
      ensures if old(x.kind.stackable) then StackMoved(old(State()), State(), dest, toItem, x, m, added)
              else SingleMoved(old(State()), State(), dest, x)
    {
      hide Valid, Moved, StacksFit, Up, SlotsFilled, StackMoved, SingleMoved, Game.State;
      added := [];
      if x.kind.stackable {
        added := TransferStack(from, dest, slot, toItem, x, m);
        moved := m;
      } else {
        moved := x.count;
        TransferSingle(from, dest, slot, x);
      }
    }

    /** Moves an item to the place that was found for it. */
    method MoveResolved(from: Item, dest: Item, slot: int, x: Item, count: nat, noLimit: bool, ignoreNotMoveable: bool)
      returns (ret: ReturnValue, ghost moved: nat, ghost added: seq<Item>)
      requires Sound() && StacksFit(State()) && from in items && dest in items && x in items
      requires x.parent == from && dest.isContainer && slot < dest.maxSize
      modifies this, items
      ensures Sound() && StacksFit(State()) && Moved(old(State()), State(), from, dest, old(x.kind), moved)
      ensures Outcome(old(State()), old(heights), from, dest, slot, x, count, !noLimit, ignoreNotMoveable, ret, moved)
      ensures (ret != RET_NOERROR && moved == 0) || x == ItemAt(old(State()), dest, slot) ==> State() == old(State())
      ensures !old(x.kind.stackable) && ret == RET_NOERROR && x != ItemAt(old(State()), dest, slot) ==> x.parent == dest
      ensures WithinLimits(old(State()), State(), if noLimit then dest else null)
      ensures old(x.kind.stackable) ==>
                SlotsFilled(old(State()), State(), dest, moved > RoomAt(old(State()), dest, slot, old(x.kind)))
      ensures old(x.kind.stackable) && moved > 0 ==>
                StackMoved(old(State()), State(), dest, ItemAt(old(State()), dest, slot), x, moved, added)
      ensures !old(x.kind.stackable) && ret == RET_NOERROR && x != ItemAt(old(State()), dest, slot) ==>
                SingleMoved(old(State()), State(), dest, x)
    {
      hide Valid, Linked, Coherent, Ranked, Up, StacksFit, Moved, Refusal, Share, RoomAt, Matches, Game.State;
      hide SlotsFilled, WithinLimits, StackMoved, SingleMoved;
      ghost var s, h := State(), heights;
      moved, added := 0, [];
      NothingMoved(s, from, dest, x.kind);
      SoundRanked();
      HeldBy(x);
      Cells(x);
      CellOrNull(dest);
      RoomIs(dest, slot, x.kind);
      var toItem := if 0 <= slot < |dest.itemlist| then dest.itemlist[slot] else null;
      NothingLimited(s);
      if x == toItem {
        return RET_NOERROR, moved, added;
      }
      var retMaxCount, maxCount, m;
      ret, retMaxCount, maxCount, m := QueryMove(from, dest, slot, x, count, noLimit, ignoreNotMoveable);
      if ret != RET_NOERROR {
        return;
      }
      if !noLimit {
        FitsIfAllowed(s, h, from, dest, slot, x, count, ignoreNotMoveable);
      }
      if x.kind.stackable && maxCount < count {
        ret := retMaxCount;
      }
      if !x.kind.stackable {
        SingleShare(s, dest, slot, x, count);
      }
      moved, added := Transfer(from, dest, slot, toItem, x, m);
      SlotsWithin(s, State(), dest, !s[x].kind.stackable || moved > RoomAt(s, dest, slot, s[x].kind));
    }

    /**
      Moves an item, or `count` of a stack, between containers.  `dest` and `slot` are where the target
      slot leads, and `moved` is how many items went there: what one container loses the other gains,
      type by type.  Flags hold only for a move to `to` itself: then limits may be lifted, and what is not
      moveable may move.
     */
    method InternalMoveItem(from: Item, to: Item, index: int, x: Item, count: nat, noLimit: bool,
                            ignoreNotMoveable: bool)
      returns (ret: ReturnValue, ghost dest: Item, ghost slot: int, ghost moved: nat, ghost added: seq<Item>)
      requires Sound() && StacksFit(State()) && from in items && to in items && x in items
      requires x.parent == from && to.isContainer
      modifies this, items
      ensures Sound() && StacksFit(State())
      ensures dest in old(items) && (dest, slot) == Settled(old(State()), to, index)
      ensures Moved(old(State()), State(), from, dest, old(x.kind), moved)
      ensures Outcome(old(State()), old(heights), from, dest, slot, x, count, !noLimit || dest != to,
                      ignoreNotMoveable && dest == to, ret, moved)
      ensures (ret != RET_NOERROR && moved == 0) || x == ItemAt(old(State()), dest, slot) ==> State() == old(State())
      ensures !old(x.kind.stackable) && ret == RET_NOERROR && x != ItemAt(old(State()), dest, slot) ==> x.parent == dest
      ensures WithinLimits(old(State()), State(), if noLimit && dest == to then dest else null)
      ensures old(x.kind.stackable) ==>
                SlotsFilled(old(State()), State(), dest, moved > RoomAt(old(State()), dest, slot, old(x.kind)))
      ensures old(x.kind.stackable) && moved > 0 ==>
                StackMoved(old(State()), State(), dest, ItemAt(old(State()), dest, slot), x, moved, added)
      ensures !old(x.kind.stackable) && ret == RET_NOERROR && x != ItemAt(old(State()), dest, slot) ==>
                SingleMoved(old(State()), State(), dest, x)
    {
      hide Valid, Ranked, StacksFit, Moved, Outcome, Settled, RoomAt, ItemAt, WithinLimits, SlotsFilled, Game.State;
      hide StackMoved, SingleMoved;
      SoundRanked();
      var target, i, toItem, lifted;
      ghost var hops;
      target, i, toItem, lifted, hops := ResolveDestination(to, index, noLimit);
      dest, slot := target, i;
      CellOrNull(target);
      ret, moved, added := MoveResolved(from, target, i, x, count, lifted, ignoreNotMoveable && target == to);
    }

    /** A loose item goes onto the target item as far as it fits, and what is left becomes the first item. */
    method Settle(dest: Item, slot: int, toItem: Item?, x: Item)
      returns (ghost slots: int, ghost added: seq<Item>)
      requires MayAdd(State(), heights, dest, x) && StacksFit(State()) && slot < dest.maxSize
      requires toItem != null ==> toItem in items && toItem in dest.itemlist
      modifies this, items
      ensures Sound() && StacksFit(State())
      ensures 0 <= slots <= 1 && Gains(old(State()), State(), dest, old(x.kind), old(x.count), slots)
      ensures var alike := old(x.kind.stackable && toItem != null && toItem.kind == x.kind);
              slots == if alike && old(x.count) <= old(Room(toItem, x.kind)) then 0 else 1
      ensures toItem == null ==>
                && State() == Add(old(State()), old(heights), dest, x)
                && heights == Raise(old(State()), old(heights), dest, x)
      ensures AddedTo(old(State()), State(), dest, toItem, x, added)
    {
      hide Valid, Linked, Coherent, Ranked, Up, StacksFit, Gains, OthersSame, Add, Raise, Shelved, Game.State;
      hide ToppedUp, NewStack, AddedTo;
      ghost var s, h, count := State(), heights, x.count;
      var kind := x.kind;
      InState(dest);
      InState(x);
      Cells(x);
      slots, added := 1, [x];
      CellOrNull(toItem);
      CellOrNull(dest);
      NotItself(s, h, dest, toItem, x);
      if !kind.stackable || toItem == null || toItem.kind != kind {
        Put(dest, slot, x);
        Cells(x);
        AllAdded(s, State(), dest, toItem, x);
        return;
      }
      CellOrNull(dest);
      NotLoose(s, h, dest, toItem);
      StackCount(toItem);
      StackCount(x);
      var n := if 100 - toItem.count <= x.count then 100 - toItem.count else x.count;
      TopUp(dest, toItem, n);
      ghost var s1 := State();
      Cells(x);
      Cells(toItem);
      slots, added := 0, [];
      Same(s, s1, toItem, x);
      if x.count - n > 0 {
        slots := 1;
        if n > 0 {
          ghost var rest := PutNew(dest, slot, kind, x.count - n);
          added := [rest];
        } else {
          StillMayBeAdded(s, s1, h, dest, x, toItem);
          Put(dest, slot, x);
          added := [x];
          Cells(x);
        }
        GainsChain(s, s1, State(), dest, kind, n, count - n, 0, 1);
      }
      AddedPieces(s, s1, State(), dest, toItem, x, n, added);
    }

    lemma NotItself(s: World, h: Heights, c: Item, y: Item?, x: Item)
      requires Valid(s, h) && c in s && x in s && s[x].parent == null && (y != null ==> y in s[c].contents)
      ensures y != x
    {
    }

    lemma LacksIs(dest: Item, slot: int, x: Item)
      requires Sound() && StacksFit(State()) && dest in items && x in items
      ensures var free := if dest.maxSize >= |dest.itemlist| then dest.maxSize - |dest.itemlist| else 0;
              Lacks(State(), dest, slot, x) <==>
                if x.kind.stackable then
                  (slot == INDEX_WHEREEVER && free == 0) || free * 100 + RoomAt(State(), dest, slot, x.kind) < x.count
                else free == 0
    {
    }

    lemma NotLoose(s: World, h: Heights, c: Item, y: Item)
      requires Valid(s, h) && c in s && y in s[c].contents
      ensures y in s && s[y].parent == c
    {
    }

    lemma Same(s: World, s1: World, y: Item, x: Item)
      requires OthersSame(s, s1, y) && x != y && x in s && x in s1
      ensures s1[x].kind == s[x].kind && s1[x].count == s[x].count
    {
    }

    /** Puts an item that is nowhere into a container. */
    method InternalAddItem(to: Item, x: Item, index: int, noLimit: bool)
      returns (ret: ReturnValue, ghost dest: Item, ghost slot: int, ghost slots: int, ghost added: seq<Item>)
      requires Sound() && StacksFit(State()) && to in items && x in items && x.parent == null && to.isContainer
      modifies this, items
      ensures Sound() && StacksFit(State())
      ensures (dest, slot) == Destination(old(State()), to, index) && dest in old(State())
      ensures var s := old(State());
              ret == if !s[x].kind.pickupable then RET_CANNOTPICKUP
                     else if x in Up(s, old(heights), dest) then RET_THISISIMPOSSIBLE
                     else if !noLimit && Lacks(s, dest, slot, x) then RET_CONTAINERNOTENOUGHROOM
                     else RET_NOERROR
      ensures ret != RET_NOERROR ==> State() == old(State()) && heights == old(heights)
      ensures ret == RET_NOERROR && ItemAt(old(State()), dest, slot) == null ==>
                && MayAdd(old(State()), old(heights), dest, x)
                && State() == Add(old(State()), old(heights), dest, x)
                && heights == Raise(old(State()), old(heights), dest, x)
      ensures ret == RET_NOERROR ==>
                0 <= slots <= 1 && Gains(old(State()), State(), dest, old(x.kind), old(x.count), slots)
      ensures ret == RET_NOERROR ==> slots == Places(old(State()), dest, slot, x)
      ensures ret == RET_NOERROR ==>
                AddedTo(old(State()), State(), dest, ItemAt(old(State()), dest, slot), x, added)
      ensures ret == RET_NOERROR && !noLimit ==>
                (WithinLimits(old(State()), State(), null) <==> !Overfills(old(State()), dest, slot, x))
    {
      hide Valid, Linked, Coherent, Ranked, Up, StacksFit, Gains, Destination, Add, Raise, Game.State;
      hide RoomAt, Lacks, WithinLimits, Matches, Overfills, AddedTo;
      ghost var s, h := State(), heights;
      SoundRanked();
      Cells(to);
      DestinationSettles(s, h, to, index);
      var target, i, toItem;
      target, i, toItem := QueryDestination(to, index);
      dest, slot, slots, added := target, i, 0, [];
      Cells(x);
      Cells(target);
      RoomIs(target, i, x.kind);
      LacksIs(target, i, x);
      NothingLimited(s);
      ret := QueryAdd(target, i, x, noLimit);
      if ret != RET_NOERROR {
        return;
      }
      var maxCount;
      ret, maxCount := QueryMaxCount(target, i, x, x.count, noLimit);
      if ret != RET_NOERROR {
        return;
      }
      slots, added := Settle(target, i, toItem, x);
      if !noLimit {
        OverfillsExactly(s, target, i, x);
        GainsWithin(s, State(), target, s[x].kind, s[x].count, slots);
      }
    }

    /** Takes an item, or `count` of a stack, out of the game. */
    method InternalRemoveItem(x: Item, count: int, canRemove: bool) returns (ret: ReturnValue, ghost slots: int)
      requires Sound() && StacksFit(State()) && x in items && count >= -1
      modifies items
      ensures Sound() && StacksFit(State())
      ensures var s, n := old(State()), if count == -1 then old(x.count) else count;
              && ret == (if s[x].parent == null || n == 0 || (s[x].kind.stackable && n > s[x].count) || !canRemove
                         then RET_NOTPOSSIBLE else RET_NOERROR)
              && (ret != RET_NOERROR ==> State() == s)
              && (ret == RET_NOERROR ==>
                    && s[x].parent in s
                    && Gains(s, State(), s[x].parent, s[x].kind,
                             -((if s[x].kind.stackable then n else s[x].count) as int), slots)
                    && (slots == if s[x].kind.stackable && n != s[x].count then 0 else -1)
                    && (slots == -1 ==> x in s[s[x].parent].contents && State() == Remove(s, heights, s[x].parent, x)))
    {
      hide Valid, Gains, StacksFit, OthersSame, Remove, Game.State;
      slots := 0;
      Cells(x);
      if x.parent == null {
        return RET_NOTPOSSIBLE, slots;
      }
      HeldBy(x);
      Cells(x.parent);
      var cylinder := x.parent;
      var n := if count == -1 then x.count else count;
      ret := QueryRemove(cylinder, x, n, true);
      if ret != RET_NOERROR {
        return;
      }
      if !canRemove {
        return RET_NOTPOSSIBLE, slots;
      }
      slots := if x.kind.stackable && n != x.count then 0 else -1;
      Take(cylinder, x, n);
    }

    lemma SingleShare(s: World, dest: Item, slot: int, x: Item, count: nat)
      requires dest in s && x in s && !s[x].kind.stackable
      ensures forall limited :: Share(s, dest, slot, x, count, limited) == s[x].count
    {
    }

    lemma HeldBy(x: Item)
      requires Sound() && x in items && x.parent != null
      ensures x.parent in items && x in x.parent.itemlist
    {
      Cells(x);
      Cells(x.parent);
    }

    lemma StackCount(x: Item)
      requires StacksFit(State()) && x in items
      ensures x.kind.stackable ==> x.count <= 100
    {
      Cells(x);
    }

    lemma CellOrNull(x: Item?)
      requires x != null ==> x in items
      ensures x != null ==> x in State() && State()[x] == Cell(x.kind, x.count, x.parent, x.totalWeight, x.itemlist)
      ensures State().Keys == items
    {
    }
  }

  /** Where an item dropped on a slot of a container goes: up, into a container lying there, or here. */
  function Destination(s: World, c: Item, index: int): (Item, int)
    requires c in s
  {
    if index == 254 then (if s[c].parent != null then s[c].parent else c, INDEX_WHEREEVER)
    else if index == 255 || index >= c.maxSize then (c, INDEX_WHEREEVER)
    else if 0 <= index < |s[c].contents| && s[c].contents[index].isContainer then
      (s[c].contents[index], INDEX_WHEREEVER)
    else (c, index)
  }

  function Settled(s: World, c: Item, index: int): (Item, int)
    requires c in s && Destination(s, c, index).0 in s
  {
    var (dest, slot) := Destination(s, c, index);
    Destination(s, dest, slot)
  }

  /** The first destination is the last. */
  lemma DestinationSettles(s: World, h: Heights, c: Item, index: int)
    requires Linked(s) && Ranked(s, h) && c in s && c.isContainer
    ensures var (dest, slot) := Destination(s, c, index);
            && dest in s && dest.isContainer && slot < dest.maxSize
            && Destination(s, dest, slot) == (dest, slot) == Settled(s, c, index)
            && (dest == c || slot == INDEX_WHEREEVER)
  {
    if s[c].parent != null {
      HolderIsContainer(s, c);
    }
    var (dest, slot) := Destination(s, c, index);
    if dest != c && index != 254 {
      assert dest in s[c].contents;
    }
  }

  /**
    Where slots lead: 254 to the container around, if there is one; a slot with a container lying on it into that;
    and any other slot nowhere else, with 255 and slots beyond the limit standing for any place.
   */
  lemma WhereSlotsLead(s: World, h: Heights, c: Item, index: int)
    requires Linked(s) && Ranked(s, h) && c in s && c.isContainer
    ensures var (dest, slot) := Destination(s, c, index);
            var into := index !in {254, 255} && 0 <= index < c.maxSize && index < |s[c].contents|
                        && s[c].contents[index].isContainer;
            && dest in s && Settled(s, c, index) == (dest, slot)
            && (index == 254 && s[c].parent != null ==> dest == s[c].parent && slot == INDEX_WHEREEVER)
            && (index == 254 && s[c].parent == null ==> dest == c && slot == INDEX_WHEREEVER)
            && (into ==> dest == s[c].contents[index] && slot == INDEX_WHEREEVER)
            && (index != 254 && !into ==>
                  dest == c && slot == if index == 255 || index >= c.maxSize then INDEX_WHEREEVER else index)
  {
    DestinationSettles(s, h, c, index);
  }

  // ---------------------------------------------------------------- what a move does to each item

  /** The item is the first of its new container; no other item has changed or changed places. */
  ghost predicate SingleMoved(s: World, s': World, dest: Item, x: Item) {
    && x in s && dest in s && Shelved(s, s', dest, [x], {x}) && OthersSame(s, s', x) && s'.Keys == s.Keys
    && s'[x].parent == dest && s'[x].kind == s[x].kind && s'[x].count == s[x].count
  }

  /** How many of `m` items the stack at the target slot takes. */
  function Topped(s: World, toItem: Item?, kind: Kind, m: nat): nat {
    if toItem in s && s[toItem].kind == kind && s[toItem].count <= 100 then
      if 100 - s[toItem].count <= m then 100 - s[toItem].count else m
    else 0
  }

  /** A single item that goes from one container to another is first there, and nothing else is anywhere else. */
  lemma SingleMoveShows(s: World, h: Heights, s': World, from: Item, dest: Item, x: Item, y: Item)
    requires Valid(s, h) && from in s && x in s[from].contents && SingleMoved(s, s', dest, x)
    ensures forall c :: c in s ==>
              s'[c].contents
              == (if c == dest then [x] else [])
                 + (if c == from then Without(s[c].contents, IndexOf(s[c].contents, x)) else s[c].contents)
    ensures s'[x].parent == dest && s'[x].kind == s[x].kind && s'[x].count == s[x].count && s'.Keys == s.Keys
    ensures y in s && y != x ==> s'[y].parent == s[y].parent && s'[y].kind == s[y].kind && s'[y].count == s[y].count
  {
    LeftBehind(s, h, from, x);
    hide Valid, Remaining, Without;
  }

  lemma LeftBehind(s: World, h: Heights, from: Item, x: Item)
    requires Valid(s, h) && from in s && x in s[from].contents
    ensures forall c :: c in s ==>
              Remaining(s[c].contents, {x})
              == if c == from then Without(s[c].contents, IndexOf(s[c].contents, x)) else s[c].contents
  {
    hide Ranked, Coherent, Remaining, Without;
    RemainingOne(s[from].contents, x);
    forall c | c in s && c != from ensures Remaining(s[c].contents, {x}) == s[c].contents {
      AllRemain(s[c].contents, {x});
    }
  }

  /** Some of a stack leaves the rest where it is; what does not go onto the other stack is first in its container. */
  lemma StackMoveShows(s: World, h: Heights, s': World, from: Item, dest: Item, toItem: Item?, x: Item, m: nat,
                       added: seq<Item>, y: Item)
    requires Valid(s, h) && from in s && x in s[from].contents && s[x].parent == from
    requires StackMoved(s, s', dest, toItem, x, m, added)
    ensures forall c :: c in s ==>
              s'[c].contents == (if c == dest then added else [])
                                + (if c == from && m == s[x].count
                                   then Without(s[c].contents, IndexOf(s[c].contents, x)) else s[c].contents)
    ensures if m == s[x].count then s'[x].parent == null else s'[x].parent == from && s'[x].count == s[x].count - m
    ensures y in s && y != x && y != toItem ==>
              s'[y].parent == s[y].parent && s'[y].kind == s[y].kind && s'[y].count == s[y].count
    ensures toItem in s && toItem != x && s[toItem].kind == s[x].kind && s[toItem].count <= 100 ==>
              s'[toItem].count == if s[toItem].count + m <= 100 then s[toItem].count + m else 100
    ensures y in added ==> y !in s && y in s' && s'[y].kind == s[x].kind && s'[y].parent == dest
    ensures y in added && (toItem !in s || s[toItem].kind != s[x].kind) ==> s'[y].count == m
    ensures y in added && toItem in s && s[toItem].kind == s[x].kind && s[toItem].count <= 100 ==>
              s'[y].count == s[toItem].count + m - 100
  {
    LeftBehind(s, h, from, x);
    NoneGone(s);
    hide Valid, Remaining, Without;
  }

  lemma NoneGone(s: World)
    ensures forall c :: c in s ==> Remaining(s[c].contents, {}) == s[c].contents
  {
    forall c | c in s ensures Remaining(s[c].contents, {}) == s[c].contents {
      AllRemain(s[c].contents, {});
    }
  }

  /** What is added is first in its container, or has gone onto a stack there; nothing else is anywhere else. */
  lemma AddShows(s: World, s': World, dest: Item, toItem: Item?, x: Item, added: seq<Item>, y: Item)
    requires AddedTo(s, s', dest, toItem, x, added)
    ensures forall c :: c in s ==> s'[c].contents == (if c == dest then added else []) + s[c].contents
    ensures y in s && y != x && y != toItem ==>
              s'[y].parent == s[y].parent && s'[y].kind == s[y].kind && s'[y].count == s[y].count
    ensures !s[x].kind.stackable || toItem !in s || s[toItem].kind != s[x].kind ==>
              added == [x] && s'[x].parent == dest && s'[x].count == s[x].count && s'[x].kind == s[x].kind
    ensures s[x].kind.stackable && toItem in s && toItem != x && s[toItem].kind == s[x].kind
            && s[toItem].count < 100 ==>
              var all := s[toItem].count + s[x].count;
              && s'[toItem].count == (if all <= 100 then all else 100) && (added == [] <==> all <= 100)
              && (y in added ==> y !in s && y in s' && s'[y].count == all - 100 && s'[y].parent == dest)
  {
    NoneGone(s);
    hide Remaining;
    assert |added| == 1 ==> added[0] in added && added == [added[0]];
  }

  /** As many as go onto it; a stack is full with a hundred. */
  lemma ToppedTillFull(s: World, toItem: Item, kind: Kind, m: nat)
    requires toItem in s && s[toItem].kind == kind && s[toItem].count <= 100
    ensures var n := Topped(s, toItem, kind, m);
            n <= m && s[toItem].count + n <= 100 && (n == m || s[toItem].count + n == 100)
  {
  }

  /**
    The stack is smaller by `m`, or gone; the stack at the target slot has what it could take; the rest is one new
    stack in front of the target container; no other item has changed or changed places.
   */
  ghost predicate StackMoved(s: World, s': World, dest: Item, toItem: Item?, x: Item, m: nat, added: seq<Item>) {
    && x in s && dest in s && m <= s[x].count && s'.Keys >= s.Keys
    && var kind, n := s[x].kind, Topped(s, toItem, s[x].kind, m);
    && Shelved(s, s', dest, added, if m == s[x].count then {x} else {})
    && (forall y :: y in s && y != x && y != toItem ==>
          s'[y].parent == s[y].parent && s'[y].kind == s[y].kind && s'[y].count == s[y].count)
    && s'[x].kind == kind && (if m == s[x].count then s'[x].parent == null
                              else s'[x].parent == s[x].parent && s'[x].count == s[x].count - m)
    && (toItem in s && toItem != x ==>
          && s'[toItem].kind == s[toItem].kind && s'[toItem].parent == s[toItem].parent
          && s'[toItem].count == s[toItem].count + n)
    && |added| == (if m > n then 1 else 0) && s'.Keys == s.Keys + (set y | y in added)
    && forall y :: y in added ==>
         y !in s && y in s' && s'[y].parent == dest && s'[y].kind == kind && s'[y].count == m - n
  }

  /**
    A loose item becomes the first of a container, or as many of it as the stack at the target slot can take go there
    and the rest, if any, becomes a new first stack.  No other item has changed or changed places.
   */
  ghost predicate AddedTo(s: World, s': World, dest: Item, toItem: Item?, x: Item, added: seq<Item>) {
    && x in s && dest in s && s'.Keys >= s.Keys
    && var kind, count := s[x].kind, s[x].count;
    && var alike := kind.stackable && toItem in s && s[toItem].kind == kind;
    && var n := if alike then Topped(s, toItem, kind, count) else 0;
    && Shelved(s, s', dest, added, {})
    && (forall y :: y in s && y != x && y != toItem ==>
          s'[y].parent == s[y].parent && s'[y].kind == s[y].kind && s'[y].count == s[y].count)
    && (toItem in s && toItem != x ==>
          && s'[toItem].kind == s[toItem].kind && s'[toItem].parent == s[toItem].parent
          && s'[toItem].count == s[toItem].count + n)
    && |added| == (if alike && count <= n then 0 else 1) && s'.Keys == s.Keys + (set y | y in added)
    && (forall y :: y in added ==>
          && y in s' && s'[y].parent == dest && s'[y].kind == kind && s'[y].count == count - n
          && (n == 0 ==> y == x) && (n > 0 ==> y !in s))
    && (x !in added ==> s'[x].parent == null && s'[x].kind == kind && s'[x].count == count)
  }

  lemma AllAdded(s: World, s': World, dest: Item, toItem: Item?, x: Item)
    requires x in s && dest in s && s'.Keys == s.Keys && toItem != x && OthersSame(s, s', x)
    requires !s[x].kind.stackable || toItem == null || (toItem in s && s[toItem].kind != s[x].kind)
    requires toItem != null ==> toItem in s
    requires Shelved(s, s', dest, [x], {}) && s'[x].parent == dest && s'[x].kind == s[x].kind
    requires s'[x].count == s[x].count
    ensures AddedTo(s, s', dest, toItem, x, [x])
  {
    hide Shelved, Topped;
    assert (set y | y in [x]) == {x};
  }

  lemma AddedPieces(s: World, s1: World, s2: World, dest: Item, toItem: Item, x: Item, n: nat, added: seq<Item>)
    requires x in s && dest in s && toItem in s && toItem != x && s[x].kind.stackable && s[toItem].kind == s[x].kind
    requires s[x].parent == null && n == Topped(s, toItem, s[x].kind, s[x].count) <= s[x].count
    requires ToppedUp(s, s1, dest, toItem, n)
    requires if s[x].count <= n then added == [] && s2 == s1
             else if n > 0 then |added| == 1 && NewStack(s1, s2, dest, added[0], s[x].kind, s[x].count - n)
             else
               && added == [x] && Shelved(s1, s2, dest, [x], {}) && s2.Keys == s1.Keys && OthersSame(s1, s2, x)
               && s2[x].parent == dest && s2[x].kind == s[x].kind && s2[x].count == s[x].count
    ensures AddedTo(s, s2, dest, toItem, x, added)
  {
    hide Shelved, Topped;
    if s2 == s1 {
      SameShelves(s1, s2, dest);
    }
    assert added == if s[x].count <= n then [] else [added[0]];
    ShelvedChain(s, s1, s2, dest, dest, added, {});
    assert (set y | y in added) == if s[x].count <= n then {} else {added[0]};
  }

  /** Some of a stack is taken, or the whole item. */
  ghost predicate TakenFrom(s: World, s': World, c: Item, x: Item, m: nat) {
    && x in s && s'.Keys == s.Keys && OthersSame(s, s', x) && s'[x].kind == s[x].kind
    && if s[x].kind.stackable && m != s[x].count then
         m <= s[x].count && Shelved(s, s', c, [], {}) && s'[x].parent == s[x].parent && s'[x].count == s[x].count - m
       else Shelved(s, s', c, [], {x}) && s'[x].parent == null && s'[x].count == s[x].count
  }

  ghost predicate ToppedUp(s: World, s': World, c: Item, x: Item, n: nat) {
    && x in s && s'.Keys == s.Keys && OthersSame(s, s', x) && Shelved(s, s', c, [], {})
    && s'[x].kind == s[x].kind && s'[x].parent == s[x].parent && s'[x].count == s[x].count + n
  }

  ghost predicate NewStack(s: World, s': World, c: Item, x: Item, kind: Kind, count: nat) {
    && x !in s && s'.Keys == s.Keys + {x} && OthersSame(s, s', null) && Shelved(s, s', c, [x], {})
    && s'[x].kind == kind && s'[x].parent == c && s'[x].count == count
  }

  /** A stack that is taken, as far as possible put onto another, and the rest put in front. */
  lemma StackPieces(s: World, s1: World, s2: World, s3: World, from: Item, dest: Item, toItem: Item?, x: Item, m: nat,
                    n: nat, added: seq<Item>)
    requires x in s && dest in s && s[x].kind.stackable && m <= s[x].count && toItem != x
    requires toItem != null ==> toItem in s
    requires n == Topped(s, toItem, s[x].kind, m) && TakenFrom(s, s1, from, x, m)
    requires s2 == s1 || (toItem != null && ToppedUp(s1, s2, dest, toItem, n))
    requires n > 0 ==> toItem != null && ToppedUp(s1, s2, dest, toItem, n)
    requires if m > n then |added| == 1 && NewStack(s2, s3, dest, added[0], s[x].kind, m - n)
             else added == [] && s3 == s2
    ensures StackMoved(s, s3, dest, toItem, x, m, added)
  {
    hide Shelved, Topped;
    ShelvesChanged(s, s1, s2, s3, from, dest, toItem, x, m, n, added);
    ItemsChanged(s, s1, s2, s3, from, dest, toItem, x, m, n, added);
    hide OthersSame, TakenFrom, ToppedUp;
    assert (set y | y in added) == if m > n then {added[0]} else {};
  }

  lemma ItemsChanged(s: World, s1: World, s2: World, s3: World, from: Item, dest: Item, toItem: Item?, x: Item,
                     m: nat, n: nat, added: seq<Item>)
    requires x in s && s[x].kind.stackable && m <= s[x].count && toItem != x && TakenFrom(s, s1, from, x, m)
    requires toItem != null ==> toItem in s
    requires s2 == s1 || (toItem != null && ToppedUp(s1, s2, dest, toItem, n))
    requires n > 0 ==> toItem != null && ToppedUp(s1, s2, dest, toItem, n)
    requires if m > n then |added| == 1 && NewStack(s2, s3, dest, added[0], s[x].kind, m - n)
             else added == [] && s3 == s2
    ensures s2.Keys == s.Keys && s3.Keys >= s.Keys
    ensures forall y :: y in s && y != x && y != toItem ==>
              s3[y].parent == s[y].parent && s3[y].kind == s[y].kind && s3[y].count == s[y].count
    ensures s3[x].kind == s[x].kind && (if m == s[x].count then s3[x].parent == null
                                        else s3[x].parent == s[x].parent && s3[x].count == s[x].count - m)
    ensures toItem != null ==> s3[toItem].kind == s[toItem].kind && s3[toItem].parent == s[toItem].parent
                               && s3[toItem].count == s[toItem].count + n
  {
    hide Shelved;
  }

  lemma ShelvesChanged(s: World, s1: World, s2: World, s3: World, from: Item, dest: Item, toItem: Item?, x: Item,
                       m: nat, n: nat, added: seq<Item>)
    requires x in s && s[x].kind.stackable && TakenFrom(s, s1, from, x, m)
    requires s2 == s1 || (toItem != null && ToppedUp(s1, s2, dest, toItem, n))
    requires if m > n then |added| == 1 && NewStack(s2, s3, dest, added[0], s[x].kind, m - n)
             else added == [] && s3 == s2
    ensures Shelved(s, s3, dest, added, if m == s[x].count then {x} else {})
  {
    hide Shelved, OthersSame;
    if s2 == s1 {
      SameShelves(s1, s2, dest);
    }
    if s3 == s2 {
      SameShelves(s2, s3, dest);
    }
    var gone := if m == s[x].count then {x} else {};
    assert added == if m > n then [added[0]] else [];
    ShelvedChain(s, s1, s2, from, dest, [], gone);
    ShelvedChain(s, s2, s3, dest, dest, added, gone);
  }

  // ---------------------------------------------------------------- what a move may do

  /** Places left in a container. */
  function Free(s: World, c: Item): nat
    requires c in s
  {
    if c.maxSize >= |s[c].contents| then c.maxSize - |s[c].contents| else 0
  }

  /** The item at a slot, if there is one. */
  function ItemAt(s: World, c: Item, slot: int): Item?
    requires c in s
  {
    if 0 <= slot < |s[c].contents| then s[c].contents[slot] else null
  }

  /** How much of a stack the item at a slot can take. */
  function RoomAt(s: World, c: Item, slot: int, kind: Kind): nat
    requires c in s
  {
    var y := ItemAt(s, c, slot);
    if y != null && y in s && s[y].kind == kind && s[y].count <= 100 then 100 - s[y].count else 0
  }

  /** How much of `x` a move to `slot` of `dest` takes there. */
  function Share(s: World, dest: Item, slot: int, x: Item, count: nat, limited: bool): nat
    requires dest in s && x in s
  {
    if !s[x].kind.stackable then s[x].count
    else if limited && Free(s, dest) * 100 + RoomAt(s, dest, slot, s[x].kind) < count then
      Free(s, dest) * 100 + RoomAt(s, dest, slot, s[x].kind)
    else count
  }

  /** No container but the exempt one is filled beyond its limit. */
  ghost predicate WithinLimits(s: World, s': World, exempt: Item?) {
    forall c :: c in s && c in s' && c != exempt ==>
        |s'[c].contents| <= |s[c].contents| || |s'[c].contents| <= c.maxSize
  }

  /** Whether an item does not fit at all. */
  predicate Lacks(s: World, dest: Item, slot: int, x: Item)
    requires dest in s && x in s
  {
    if s[x].kind.stackable then
      (slot == INDEX_WHEREEVER && Free(s, dest) == 0) ||
      Free(s, dest) * 100 + RoomAt(s, dest, slot, s[x].kind) < s[x].count
    else Free(s, dest) == 0
  }

  /** No container fills another place, except perhaps one place in `dest`. */
  ghost predicate SlotsFilled(s: World, s': World, dest: Item, one: bool) {
    forall c :: c in s && c in s' ==> |s'[c].contents| <= |s[c].contents| + if c == dest && one then 1 else 0
  }

  lemma NothingLimited(s: World)
    ensures forall exempt :: WithinLimits(s, s, exempt)
    ensures forall dest, one :: SlotsFilled(s, s, dest, one)
  {
  }

  lemma SlotsWithin(s: World, s': World, dest: Item, one: bool)
    requires SlotsFilled(s, s', dest, one) && dest in s
    ensures WithinLimits(s, s', dest)
    ensures one ==> |s[dest].contents| < dest.maxSize ==> WithinLimits(s, s', null)
    ensures !one ==> WithinLimits(s, s', null)
  {
  }

  /** How many places an added item fills: none if all of it fits on a stack at the slot. */
  function Places(s: World, dest: Item, slot: int, x: Item): nat
    requires dest in s && x in s
  {
    var kind := s[x].kind;
    if kind.stackable && Matches(s, dest, slot, kind) && s[x].count <= RoomAt(s, dest, slot, kind) then 0 else 1
  }

  /** Whether there is an item of a type at a slot. */
  predicate Matches(s: World, dest: Item, slot: int, kind: Kind)
    requires dest in s
  {
    ItemAt(s, dest, slot) in s && s[ItemAt(s, dest, slot)].kind == kind
  }

  /** An empty stack that is put on a slot of a full container, and finds no stack there to vanish on. */
  predicate Overfills(s: World, dest: Item, slot: int, x: Item)
    requires dest in s && x in s
  {
    && s[x].kind.stackable && s[x].count == 0 && Free(s, dest) == 0
    && slot != INDEX_WHEREEVER && !Matches(s, dest, slot, s[x].kind)
  }

  /** What is let in fills a place that is not there exactly if it is such a stack. */
  lemma OverfillsExactly(s: World, dest: Item, slot: int, x: Item)
    requires dest in s && x in s && !Lacks(s, dest, slot, x)
    ensures Places(s, dest, slot, x) == 1 && |s[dest].contents| >= dest.maxSize <==> Overfills(s, dest, slot, x)
  {
  }

  /** A bag for one item that holds a coin, and an empty stack of something else. */
  function FullBag(bag: Item, coin: Item, x: Item): World {
    map[bag := Cell(Kind(3, false, true, true, 800, 0), 1, null, 10, [coin]),
        coin := Cell(Kind(1, true, true, true, 10, 1), 1, bag, 0, []),
        x := Cell(Kind(2, true, true, true, 10, 0), 0, null, 0, [])]
  }

  function FullBagHeights(bag: Item, coin: Item, x: Item): Heights {
    map[bag := 1, coin := 0, x := 0]
  }

  lemma FullBagValid(bag: Item, coin: Item, x: Item)
    requires bag.isContainer && bag.maxSize == 1 && !coin.isContainer && !x.isContainer && bag != coin && bag != x
    requires coin != x
    ensures Valid(FullBag(bag, coin, x), FullBagHeights(bag, coin, x)) && StacksFit(FullBag(bag, coin, x))
  {
    var s, h := FullBag(bag, coin, x), FullBagHeights(bag, coin, x);
    FullBagLinked(bag, coin, x);
    FullBagWeighs(bag, coin, x);
    hide Linked, Ranked, Weighs;
    assert Coherent(s);
  }

  lemma FullBagLinked(bag: Item, coin: Item, x: Item)
    requires bag.isContainer && !coin.isContainer && !x.isContainer && bag != coin && bag != x && coin != x
    ensures Linked(FullBag(bag, coin, x)) && Ranked(FullBag(bag, coin, x), FullBagHeights(bag, coin, x))
  {
    FullBagRanked(bag, coin, x);
    hide Ranked;
    var s := FullBag(bag, coin, x);
    assert s[bag].contents == [coin] && s[coin].contents == [] && s[x].contents == [];
    assert Distinct([coin]) && Distinct([]);
    hide Distinct;
  }

  lemma FullBagRanked(bag: Item, coin: Item, x: Item)
    requires bag != coin && bag != x && coin != x
    ensures Ranked(FullBag(bag, coin, x), FullBagHeights(bag, coin, x))
  {
  }

  lemma FullBagWeighs(bag: Item, coin: Item, x: Item)
    requires bag.isContainer && !coin.isContainer && !x.isContainer && bag != coin && bag != x && coin != x
    ensures var s := FullBag(bag, coin, x); Weighs(s, bag, 0) && Weighs(s, coin, 0) && Weighs(s, x, 0)
  {
    assert Total(Weights(FullBag(bag, coin, x)), [coin][1..]) == 0;
  }

  /** There the empty stack is let in, and becomes the second item of the bag for one. */
  lemma OverfilledExample(bag: Item, coin: Item, x: Item)
    requires bag.isContainer && bag.maxSize == 1 && !coin.isContainer && !x.isContainer && bag != coin && bag != x
    requires coin != x
    ensures var s, h := FullBag(bag, coin, x), FullBagHeights(bag, coin, x);
            && MayAdd(s, h, bag, x) && StacksFit(s) && Destination(s, bag, 0) == (bag, 0)
            && !Lacks(s, bag, 0, x) && Overfills(s, bag, 0, x)
            && |Add(s, h, bag, x)[bag].contents| == 2 > bag.maxSize
  {
    var s, h := FullBag(bag, coin, x), FullBagHeights(bag, coin, x);
    FullBagValid(bag, coin, x);
    FullBagWay(bag, coin, x);
    hide Valid, Held, Add, Up;
    AddGains(s, h, bag, x);
  }

  lemma FullBagWay(bag: Item, coin: Item, x: Item)
    requires bag != coin && bag != x && coin != x
    requires Ranked(FullBag(bag, coin, x), FullBagHeights(bag, coin, x))
    ensures Up(FullBag(bag, coin, x), FullBagHeights(bag, coin, x), bag) == {bag}
  {
  }

  lemma GainsWithin(s: World, s': World, c: Item, kind: Kind, d: int, slots: int)
    requires Gains(s, s', c, kind, d, slots) && 0 <= slots <= 1 && c in s
    ensures WithinLimits(s, s', null) <==> !(slots == 1 && |s[c].contents| >= c.maxSize)
  {
    hide Held;
    assert |s'[c].contents| == |s[c].contents| + slots;
  }

  lemma FitsIfAllowed(s: World, h: Heights, from: Item, dest: Item, slot: int, x: Item, count: nat,
                      ignoreNotMoveable: bool)
    requires Ranked(s, h) && from in s && dest in s && x in s
    requires Refusal(s, h, from, dest, slot, x, count, true, ignoreNotMoveable) == RET_NOERROR
    ensures !s[x].kind.stackable || Share(s, dest, slot, x, count, true) > RoomAt(s, dest, slot, s[x].kind) ==>
              |s[dest].contents| < dest.maxSize
  {
  }

  /** Why a move is refused, if it is. */
  ghost function Refusal(s: World, h: Heights, from: Item, dest: Item, slot: int, x: Item, count: nat, limited: bool,
                         ignoreNotMoveable: bool): ReturnValue
    requires Ranked(s, h) && from in s && dest in s && x in s
  {
    if !s[x].kind.pickupable then RET_CANNOTPICKUP
    else if x in Up(s, h, dest) then RET_THISISIMPOSSIBLE
    else if limited && Free(s, dest) == 0
            && (slot == INDEX_WHEREEVER || !s[x].kind.stackable
                || (RoomAt(s, dest, slot, s[x].kind) == 0 && count > 0)) then
      RET_CONTAINERNOTENOUGHROOM
    else if s[x].kind.stackable && !(0 < Share(s, dest, slot, x, count, limited) <= s[x].count) then
      RET_NOTPOSSIBLE
    else if !s[x].kind.moveable && !ignoreNotMoveable then RET_NOTMOVEABLE
    else RET_NOERROR
  }

  /** The refusals that the first query gives. */
  lemma RefusedAtOnce(s: World, h: Heights, from: Item, dest: Item, slot: int, x: Item, count: nat, limited: bool,
                      ignoreNotMoveable: bool)
    requires Ranked(s, h) && from in s && dest in s && x in s
    ensures var refusal := Refusal(s, h, from, dest, slot, x, count, limited, ignoreNotMoveable);
            if !s[x].kind.pickupable then refusal == RET_CANNOTPICKUP
            else if x in Up(s, h, dest) then refusal == RET_THISISIMPOSSIBLE
            else limited && slot == INDEX_WHEREEVER && Free(s, dest) == 0 ==> refusal == RET_CONTAINERNOTENOUGHROOM
  {
  }

  /** And those that depend on how much fits. */
  lemma RefusedLater(s: World, h: Heights, from: Item, dest: Item, slot: int, x: Item, count: nat, limited: bool,
                     ignoreNotMoveable: bool, maxCount: nat)
    requires Ranked(s, h) && from in s && dest in s && x in s && s[x].kind.pickupable && x !in Up(s, h, dest)
    requires !(limited && slot == INDEX_WHEREEVER && Free(s, dest) == 0)
    requires maxCount == if !limited then (if count < 1 then 1 else count)
                         else if s[x].kind.stackable then Free(s, dest) * 100 + RoomAt(s, dest, slot, s[x].kind)
                         else Free(s, dest)
    ensures var refusal := Refusal(s, h, from, dest, slot, x, count, limited, ignoreNotMoveable);
            var m := if s[x].kind.stackable && count < maxCount then count else maxCount;
            if limited && maxCount == 0 && (s[x].kind.stackable ==> count > 0) then
              refusal == RET_CONTAINERNOTENOUGHROOM
            else if m == 0 || (s[x].kind.stackable && m > s[x].count) then refusal == RET_NOTPOSSIBLE
            else
              && refusal == (if !s[x].kind.moveable && !ignoreNotMoveable then RET_NOTMOVEABLE else RET_NOERROR)
              && (s[x].kind.stackable ==> m == Share(s, dest, slot, x, count, limited))
  {
    hide Up, Ranked, RoomAt;
  }

  /** How a move turns out: nothing to do, refused, or the share of it done and all there is to say about the rest. */
  ghost predicate Outcome(s: World, h: Heights, from: Item, dest: Item, slot: int, x: Item, count: nat, limited: bool,
                          ignoreNotMoveable: bool, ret: ReturnValue, moved: nat)
    requires Ranked(s, h) && from in s && dest in s && x in s
  {
    var refusal := Refusal(s, h, from, dest, slot, x, count, limited, ignoreNotMoveable);
    if x == ItemAt(s, dest, slot) then ret == RET_NOERROR && moved == 0
    else if refusal != RET_NOERROR then ret == refusal && moved == 0
    else
      && moved == Share(s, dest, slot, x, count, limited) && (s[x].kind.stackable ==> moved > 0)
      && ret == (if s[x].kind.stackable && moved < count then RET_CONTAINERNOTENOUGHROOM else RET_NOERROR)
  }

  /**
    A move in plain words: what is there already stays; a loose or single item that may be picked up and moved, is
    not put into itself and has a place, goes as a whole; and of a stack goes what was asked for, or what fits.
   */
  lemma WhatMoves(s: World, h: Heights, from: Item, dest: Item, slot: int, x: Item, count: nat, limited: bool,
                  ignoreNotMoveable: bool, ret: ReturnValue, moved: nat)
    requires Ranked(s, h) && from in s && dest in s && x in s
    requires Outcome(s, h, from, dest, slot, x, count, limited, ignoreNotMoveable, ret, moved)
    requires 0 <= slot < |s[dest].contents| ==> s[dest].contents[slot] in s
    ensures var there := 0 <= slot < |s[dest].contents| && s[dest].contents[slot] == x;
            var kind, places := s[x].kind, dest.maxSize - |s[dest].contents|;
            var may := !there && kind.pickupable && x !in Up(s, h, dest) && (kind.moveable || ignoreNotMoveable);
            && (there ==> ret == RET_NOERROR && moved == 0)
            && (!there && !may ==> ret != RET_NOERROR && moved == 0)
            && (may && !kind.stackable ==>
                  if !limited || places > 0 then ret == RET_NOERROR && moved == s[x].count
                  else ret == RET_CONTAINERNOTENOUGHROOM && moved == 0)
            && (may && kind.stackable && 0 < count <= s[x].count && !limited ==> ret == RET_NOERROR && moved == count)
            && (may && kind.stackable && 0 < count <= s[x].count && limited && count <= places * 100 ==>
                  ret == RET_NOERROR && moved == count)
            && (may && kind.stackable && 0 < count <= s[x].count <= 100 && limited && places <= 0
                && 0 <= slot < |s[dest].contents| && s[s[dest].contents[slot]].kind == kind
                && s[s[dest].contents[slot]].count < 100 ==>
                  var room := 100 - s[s[dest].contents[slot]].count;
                  && moved == (if count <= room then count else room)
                  && ret == if count <= room then RET_NOERROR else RET_CONTAINERNOTENOUGHROOM)
            && (count > s[x].count && kind.stackable && !limited && !there ==> ret != RET_NOERROR && moved == 0)
  {
    hide Up, Ranked;
  }

  lemma {:induction false} FirstIndex(xs: seq<Item>, x: Item, i: nat)
    requires i < |xs| && xs[i] == x && x !in xs[..i]
    ensures i == IndexOf(xs, x)
    decreases i
  {
    if i > 0 {
      assert xs[0] in xs[..i];
      assert xs[1..][..i - 1] == xs[..i][1..];
      FirstIndex(xs[1..], x, i - 1);
    }
  }

  lemma UpStep(s: World, h: Heights, c: Item)
    requires Ranked(s, h) && c in s
    ensures s[c].parent == null ==> Up(s, h, c) == {c}
    ensures s[c].parent != null ==> s[c].parent in s && Up(s, h, c) == {c} + Up(s, h, s[c].parent)
    ensures s[c].parent != null ==> {s[c].parent} + Above(h, s[c].parent) <= Above(h, c) && c !in Above(h, c)
  {
  }

  /** What holds something is a container. */
  lemma {:induction false} OnlyContainersAbove(s: World, h: Heights, c: Item, x: Item)
    requires Valid(s, h) && c in s && x != c && !x.isContainer
    ensures x !in Up(s, h, c)
    decreases Above(h, c)
  {
    UpStep(s, h, c);
    if s[c].parent != null {
      HolderIsContainer(s, c);
      OnlyContainersAbove(s, h, s[c].parent, x);
    }
  }

  lemma TakePartFacts(s: World, h: Heights, c: Item, x: Item, count: nat)
    requires Valid(s, h) && StacksFit(s) && c in s && x in s && x in s[c].contents
    requires count <= s[x].count
    ensures var s' := Update(s, h, x, s[x].kind, count);
            && Valid(s', h) && StacksFit(s') && s'.Keys == s.Keys && OthersSame(s, s', x)
            && s'[x].kind == s[x].kind && s'[x].parent == c && s'[x].count == count
            && Gains(s, s', c, s[x].kind, count - s[x].count, 0)
  {
    hide Valid, Gains, OthersSame, Update;
    HeldMayBeRemoved(s, h, c, x);
    UpdateKeeps(s, h, x, s[x].kind, count);
    UpdatePlaces(s, h, x, s[x].kind, count);
    UpdateGains(s, h, x, count);
    StacksStay(s, Update(s, h, x, s[x].kind, count), x);
  }

  lemma TakeAllFacts(s: World, h: Heights, c: Item, x: Item)
    requires Valid(s, h) && StacksFit(s) && c in s && x in s && x in s[c].contents
    ensures var s' := Remove(s, h, c, x);
            && Valid(s', h) && StacksFit(s') && s'.Keys == s.Keys && OthersSame(s, s', x)
            && s'[x].kind == s[x].kind && s'[x].parent == null && s'[x].count == s[x].count
            && Gains(s, s', c, s[x].kind, -(s[x].count as int), -1)
  {
    hide Valid, Gains, OthersSame, Remove;
    RemoveKeeps(s, h, c, x);
    RemovePlaces(s, h, c, x);
    RemoveGains(s, h, c, x);
    StacksStay(s, Remove(s, h, c, x), x);
  }

  lemma TopUpFacts(s: World, h: Heights, c: Item, x: Item, n: nat)
    requires Valid(s, h) && StacksFit(s) && c in s && x in s && x in s[c].contents
    requires s[x].kind.stackable ==> s[x].count + n <= 100
    ensures var s' := Update(s, h, x, s[x].kind, s[x].count + n);
            && Valid(s', h) && StacksFit(s') && s'.Keys == s.Keys && OthersSame(s, s', x)
            && s'[x].kind == s[x].kind && s'[x].parent == s[x].parent && s'[x].count == s[x].count + n
            && Gains(s, s', c, s[x].kind, n, 0)
  {
    hide Valid, Gains, OthersSame, Update;
    HeldMayBeRemoved(s, h, c, x);
    UpdateKeeps(s, h, x, s[x].kind, s[x].count + n);
    UpdatePlaces(s, h, x, s[x].kind, s[x].count + n);
    UpdateGains(s, h, x, s[x].count + n);
    StacksStay(s, Update(s, h, x, s[x].kind, s[x].count + n), x);
  }

  lemma AddFacts(s: World, h: Heights, c: Item, x: Item)
    requires MayAdd(s, h, c, x) && StacksFit(s)
    ensures var s' := Add(s, h, c, x);
            && StacksFit(s') && s'.Keys == s.Keys && OthersSame(s, s', x) && s'[x].parent == c
            && s'[x].kind == s[x].kind && s'[x].count == s[x].count
            && Gains(s, s', c, s[x].kind, s[x].count, 1)
  {
    hide Valid, Gains, OthersSame, Add, Up;
    AddPlaces(s, h, c, x);
    AddGains(s, h, c, x);
    StacksStay(s, Add(s, h, c, x), x);
  }

  lemma NewFacts(s: World, h: Heights, x: Item, kind: Kind, count: nat, c: Item)
    requires Valid(s, h) && StacksFit(s) && x !in s && c in s && c.isContainer && (kind.stackable ==> count <= 100)
    ensures var s' := s[x := Fresh(kind, count)];
            && StacksFit(s') && OthersSame(s, s', x) && Gains(s, s', c, kind, 0, 0)
            && MayAdd(s', h[x := 0], c, x)
  {
    hide Linked, Coherent;
    var s', h' := s[x := Fresh(kind, count)], h[x := 0];
    NewKeeps(s, h, x, kind, count);
    NewGains(s, h, x, kind, count, c);
    NothingContainsItself(s, h, c);
    UpSame(s, h, s', h', c);
  }

  lemma OthersTwice(s: World, s1: World, s2: World, x: Item)
    requires OthersSame(s, s1, x) && OthersSame(s1, s2, x)
    ensures OthersSame(s, s2, x)
  {
  }

  lemma OthersChain(s: World, s1: World, s2: World, x: Item)
    requires OthersSame(s, s1, x) && OthersSame(s1, s2, x) && x !in s
    ensures OthersSame(s, s2, null)
  {
  }

  /** An item taken out of its container may go wherever it could have gone before. */
  lemma LooseMayBeAdded(s: World, s1: World, h: Heights, c: Item, x: Item)
    requires Valid(s, h) && Valid(s1, h) && OthersSame(s, s1, x) && s1.Keys == s.Keys
    requires c in s && x in s && c.isContainer && s1[x].parent == null && x !in Up(s, h, c)
    ensures MayAdd(s1, h, c, x)
  {
    hide Linked, Coherent;
    NothingContainsItself(s, h, c);
    UpSame(s, h, s1, h, c);
  }

  lemma StillMayBeAdded(s: World, s1: World, h: Heights, c: Item, x: Item, y: Item)
    requires MayAdd(s, h, c, x) && Valid(s1, h) && OthersSame(s, s1, y) && s1.Keys == s.Keys
    requires y in s && y != x && s1[y].parent == s[y].parent
    ensures MayAdd(s1, h, c, x)
  {
    hide Linked, Coherent;
    NothingContainsItself(s, h, c);
    UpSame(s, h, s1, h, c);
  }

  lemma StillHeld(s: World, s1: World, h: Heights, c: Item, y: Item, x: Item)
    requires Valid(s, h) && Valid(s1, h) && OthersSame(s, s1, x) && y != x && c in s && y in s[c].contents
    ensures y in s && y in s1 && c in s1 && y in s1[c].contents && s1[y].kind == s[y].kind && s1[y].count == s[y].count
  {
  }

  lemma GainsNothing(s: World, c: Item, kind: Kind)
    ensures Gains(s, s, c, kind, 0, 0)
  {
  }
}
