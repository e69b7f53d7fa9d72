/** The code that starts, refreshes and ends a creature's conditions. */
module CreatureConditions {
  import opened Arithmetic
  import opened ConditionCommon
  import opened ConditionLedger

  /** A condition; `Creature` keeps those that are active. */
  class Condition {
    const kind: int
    const id: int
    const subId: nat
    var ticks: int
    var endTime: int
    var effect: Effect

    ghost function Value(): Entry
      reads this
    {
      Entry(kind, id, subId, ticks, endTime, effect)
    }

    constructor (e: Entry)
      ensures Value() == e
    {
      kind, id, subId, ticks, endTime, effect := e.kind, e.id, e.subId, e.ticks, e.endTime, e.effect;
    }

    method SetTicks(t: int, now: int)
      modifies this`ticks, this`endTime
      ensures ticks == t && endTime == EndTime(old(endTime), t, now)
    {
      ticks := t;
      if t > 0 {
        endTime := now + t;
      }
    }

    /** Percentages become points. */
    method UpdatePercent(of: Scale)
      requires Sized(effect) && Full(of)
      modifies this`effect
      ensures effect == Pointed(old(effect), true, of)
    {
      if !effect.Attributes? {
        return;
      }
      hide Points;
      var e := effect;
      var skills, stats := e.skills, e.stats;
      for i := 0 to SKILLS
        invariant |skills| == SKILLS
        invariant forall k :: 0 <= k < SKILLS ==>
                    skills[k] == e.skills[k] + if k < i then Points(of.skills[k], e.skillsPercent[k]) else 0
      {
        if e.skillsPercent[i] != 0 {
          skills := skills[i := skills[i] + Points(of.skills[i], e.skillsPercent[i])];
        } else {
          NoPoints(of.skills[i]);
        }
      }
      for i := 0 to STATS
        invariant |stats| == STATS
        invariant forall k :: 0 <= k < STATS ==>
                    stats[k] == e.stats[k] + if k < i then Points(of.stats[k], e.statsPercent[k]) else 0
      {
        if e.statsPercent[i] != 0 {
          stats := stats[i := stats[i] + Points(of.stats[i], e.statsPercent[i])];
        } else {
          NoPoints(of.stats[i]);
        }
      }
      effect := e.(skills := skills, stats := stats);
    }
  }

  lemma PointedFits(e: Effect, of: Scale)
    requires Sized(e) && Full(of)
    ensures Sized(Pointed(e, true, of)) && Pointed(e, true, of).Attributes? == e.Attributes?
  {
  }

  lemma NotPointed(e: Effect, of: Scale)
    requires Sized(e) && Full(of)
    ensures Pointed(e, false, of) == e
  {
  }

  lemma NoPoints(value: int)
    ensures Points(value, 0) == 0
  {
  }

  ghost function ValuesOf(cs: seq<Condition>): seq<Entry>
    reads cs
  {
    seq(|cs|, i requires 0 <= i < |cs| reads cs => cs[i].Value())
  }

  class Creature {
    const player: bool
    var levels: seq<int>
    var defaults: seq<int>
    var varSpeed: int
    var varSkills: seq<int>
    var varStats: seq<int>
    var conditions: seq<Condition>

    constructor (player: bool, levels: seq<int>, defaults: seq<int>)
      requires |levels| == SKILLS && |defaults| == STATS
      ensures Valid() && conditions == [] && forall ch :: Var(ch) == Own(ch) == 0
      ensures this.player == player && this.levels == levels && this.defaults == defaults
    {
      this.player, this.levels, this.defaults, varSpeed, conditions := player, levels, defaults, 0, [];
      varSkills, varStats := seq(SKILLS, i => 0), seq(STATS, i => 0);
    }

    predicate SizesFit()
      reads this`varSkills, this`varStats, this`levels, this`defaults
    {
      |varSkills| == |levels| == SKILLS && |varStats| == |defaults| == STATS
    }

    ghost predicate Valid()
      reads this, conditions
    {
      && SizesFit()
      && (forall i, j :: 0 <= i < j < |conditions| ==> conditions[i] != conditions[j])
      && (forall c :: c in conditions ==> Fits(c.kind, c.effect))
      && Unique(Values())
    }

    ghost function Values(): seq<Entry>
      reads this`conditions, conditions
    {
      ValuesOf(conditions)
    }

    ghost function Var(ch: Channel): int
      reads this
    {
      match ch
      case SpeedChannel => varSpeed
      case SkillChannel(i) => if i < |varSkills| then varSkills[i] else 0
      case StatChannel(i) => if i < |varStats| then varStats[i] else 0
    }

    /** The part of a number that is not owed to conditions. */
    ghost function Own(ch: Channel): int
      reads this, conditions
    {
      Var(ch) - Sum(Values(), player, ch)
    }

    /** A skill with all changes to it. */
    function GetSkill(i: nat): int
      requires SizesFit() && i < SKILLS
      reads this`varSkills, this`varStats, this`levels, this`defaults
    {
      Max(0, levels[i] + varSkills[i])
    }

    /** What percentages are taken of, once some effect is gone. */
    ghost function ScaleWithout(e: Effect): Scale
      requires SizesFit()
      reads this`varSkills, this`varStats, this`levels, this`defaults
    {
      WithoutIt(levels, varSkills, defaults, e, player)
    }

    method GetScale() returns (of: Scale)
      requires SizesFit()
      ensures Full(of) && of == ScaleWithout(Other)
    {
      var skills := [];
      for i := 0 to SKILLS
        invariant |skills| == i && forall k :: 0 <= k < i ==> skills[k] == Max(0, levels[k] + varSkills[k])
      {
        skills := skills + [GetSkill(i)];
      }
      of := Scale(skills, defaults);
      assert of.skills == ScaleWithout(Other).skills;
    }

    method ChangeSpeed(delta: int)
      modifies this`varSpeed
      ensures varSpeed == old(varSpeed) + delta
    {
      varSpeed := varSpeed + delta;
    }

    /** Adds what a condition gives, or takes it away again. */
    method Apply(e: Effect, sign: int)
      requires SizesFit() && Sized(e) && sign in {1, -1}
      modifies this`varSpeed, this`varSkills, this`varStats
      ensures SizesFit()
      ensures forall ch :: Var(ch) == old(Var(ch)) + sign * Adds(e, player, ch)
    {
      if e.Speed? {
        ChangeSpeed(sign * e.delta);
      } else if e.Attributes? && player {
        for i := 0 to SKILLS
          invariant |varSkills| == SKILLS && varStats == old(varStats) && varSpeed == old(varSpeed)
          invariant forall k :: 0 <= k < SKILLS ==>
                    varSkills[k] == old(varSkills[k]) + if k < i then sign * e.skills[k] else 0
        {
          if e.skills[i] != 0 {
            varSkills := varSkills[i := varSkills[i] + sign * e.skills[i]];
          }
        }
        ghost var skills := varSkills;
        for i := 0 to STATS
          invariant |varStats| == STATS && varSkills == skills && varSpeed == old(varSpeed)
          invariant forall k :: 0 <= k < STATS ==>
                    varStats[k] == old(varStats[k]) + if k < i then sign * e.stats[k] else 0
        {
          if e.stats[i] != 0 {
            varStats := varStats[i := varStats[i] + sign * e.stats[i]];
          }
        }
      }
    }

    /** A condition begins: what it gives is added. */
    method StartCondition(c: Condition, roll: int, now: int) returns (ok: bool)
      requires Valid() && Fits(c.kind, c.effect) && c !in conditions
      modifies this`varSpeed, this`varSkills, this`varStats, c
      ensures Valid() && Fits(c.kind, c.effect) && Values() == old(Values())
      ensures !c.effect.Other? ==> ok
      ensures forall ch :: Var(ch) == old(Var(ch)) + if ok then Adds(c.effect, player, ch) else 0
      ensures Started(old(c.Value()), c.Value(), player, old(ScaleWithout(Other)), roll, now)
    {
      hide Unique;
      label before:
      ok := true;
      if c.effect.Speed? {
        if c.effect.delta == 0 {
          c.effect := Speed(roll);
        }
        ChangeSpeed(c.effect.delta);
      } else if c.effect.Attributes? {
        if player {
          var of := GetScale();
          c.UpdatePercent(of);
          Apply(c.effect, 1);
        }
      } else {
        ok := *;
      }
      c.SetTicks(c.ticks, now);
      SameValues@before(conditions);
    }

    /** A condition ends: what it gave is taken back. */
    method EndCondition(c: Condition)
      requires SizesFit() && Fits(c.kind, c.effect)
      modifies this`varSpeed, this`varSkills, this`varStats
      ensures SizesFit()
      ensures forall ch :: Var(ch) == old(Var(ch)) - Adds(c.effect, player, ch)
    {
      if c.effect.Speed? {
        ChangeSpeed(-c.effect.delta);
      } else if c.effect.Attributes? && player {
        Apply(c.effect, -1);
      }
    }

    /** A new speed takes over, unless the old one lasts for ever. */
    method RefreshSpeed(previous: Condition, c: Condition, roll: int, now: int)
      requires Valid() && previous in conditions && previous != c && previous.kind == c.kind && Fits(c.kind, c.effect)
      requires previous.effect.Speed?
      modifies this`varSpeed, this`varSkills, this`varStats, previous
      ensures SizesFit() && Fits(previous.kind, previous.effect)
      ensures forall ch ::
                Var(ch) == old(Var(ch)) - old(Adds(previous.effect, player, ch)) + Adds(previous.effect, player, ch)
      ensures Refreshed(old(previous.Value()), c.Value(), previous.Value(), player,
                        old(ScaleWithout(previous.effect)), roll, now)
    {
      hide Unique;
      if previous.ticks == -1 && c.ticks > 0 {
        return;
      }
      previous.SetTicks(c.ticks, now);
      var oldSpeedDelta := previous.effect.delta;
      var delta := c.effect.delta;
      if delta == 0 {
        delta := roll;
      }
      previous.effect := Speed(delta);
      if delta != oldSpeedDelta {
        ChangeSpeed(delta - oldSpeedDelta);
      }
    }

    /** New skills and stats take over, unless the old ones last longer. */
    method RefreshAttributes(previous: Condition, c: Condition, roll: int, now: int)
      requires Valid() && previous in conditions && previous != c && previous.kind == c.kind && Fits(c.kind, c.effect)
      requires previous.effect.Attributes?
      modifies this`varSpeed, this`varSkills, this`varStats, previous
      ensures SizesFit() && Fits(previous.kind, previous.effect)
      ensures forall ch ::
                Var(ch) == old(Var(ch)) - old(Adds(previous.effect, player, ch)) + Adds(previous.effect, player, ch)
      ensures Refreshed(old(previous.Value()), c.Value(), previous.Value(), player,
                        old(ScaleWithout(previous.effect)), roll, now)
    {
      hide Unique, Pointed;
      if !Updates(Entry(previous.kind, previous.id, previous.subId, previous.ticks, previous.endTime,
                        previous.effect),
                  Entry(c.kind, c.id, c.subId, c.ticks, c.endTime, c.effect), now) {
        return;
      }
      previous.SetTicks(c.ticks, now);
      EndCondition(previous);
      previous.effect := c.effect;
      if player {
        ScaleAfter(old(ScaleWithout(previous.effect)), old(previous.effect));
        var of := GetScale();
        PointedFits(c.effect, of);
        previous.UpdatePercent(of);
        Apply(previous.effect, 1);
      } else {
        NotPointed(c.effect, old(ScaleWithout(previous.effect)));
      }
    }

    /** Once an effect is taken back, percentages are taken of what is left. */
    lemma ScaleAfter(of: Scale, e: Effect)
      requires SizesFit() && Full(of) && of.stats == defaults
      requires forall i :: 0 <= i < SKILLS ==> of.skills[i] == Max(0, levels[i] + varSkills[i])
      ensures ScaleWithout(Other) == of
    {
      assert ScaleWithout(Other).skills == of.skills;
    }

    /** An active condition takes over what a new one of the same type, id and sub-id gives. */
    method RefreshCondition(previous: Condition, c: Condition, roll: int, now: int)
      requires Valid() && previous in conditions && previous != c && previous.kind == c.kind && Fits(c.kind, c.effect)
      modifies this`varSpeed, this`varSkills, this`varStats, previous
      ensures SizesFit() && Fits(previous.kind, previous.effect)
      ensures forall ch ::
                Var(ch) == old(Var(ch)) - old(Adds(previous.effect, player, ch)) + Adds(previous.effect, player, ch)
      ensures Refreshed(old(previous.Value()), c.Value(), previous.Value(), player,
                        old(ScaleWithout(previous.effect)), roll, now)
    {
      if previous.effect.Speed? {
        RefreshSpeed(previous, c, roll, now);
      } else if previous.effect.Attributes? {
        RefreshAttributes(previous, c, roll, now);
      } else {
        var t: int := *;
        previous.SetTicks(t, now);
      }
    }

    // -------------------------------------------------------------- the list

    /** The active condition of a type, id and sub-id. */
    method GetCondition(kind: int, id: int, subId: nat) returns (index: int)
      ensures -1 <= index < |conditions|
      ensures index == -1 ==> forall c :: c in conditions ==> !(c.kind == kind && c.id == id && c.subId == subId)
      ensures index >= 0 ==>
                conditions[index].kind == kind && conditions[index].id == id && conditions[index].subId == subId
    {
      for i := 0 to |conditions|
        invariant forall c :: c in conditions[..i] ==> !(c.kind == kind && c.id == id && c.subId == subId)
      {
        if conditions[i].kind == kind && conditions[i].id == id && conditions[i].subId == subId {
          return i;
        }
      }
      return -1;
    }

    /** Refreshes the condition at a place of the list. */
    method RefreshAt(index: nat, c: Condition, roll: int, now: int)
      requires Valid() && index < |conditions| && Fits(c.kind, c.effect) && c !in conditions
      requires SameKey(conditions[index].Value(), c.Value())
      modifies this`varSpeed, this`varSkills, this`varStats, conditions
      ensures Valid() && forall ch :: Own(ch) == old(Own(ch))
      ensures conditions == old(conditions) && Values() == old(Values())[index := Values()[index]]
      ensures Refreshed(old(Values())[index], c.Value(), Values()[index], player,
                        old(ScaleWithout(conditions[index].effect)), roll, now)
    {
      hide Sum, Adds, Refreshed;
      ghost var es := Values();
      var previous := conditions[index];
      RefreshCondition(previous, c, roll, now);
      OneChanged(es, Values(), index);
      ghost var e := previous.Value();
      UniqueChange(es, index, e);
      forall ch ensures Own(ch) == old(Own(ch)) {
        SumChange(es, index, e, player, ch);
      }
    }

    /** Starts a condition and puts it at the end of the list. */
    method AddNew(c: Condition, roll: int, now: int) returns (ok: bool)
      requires Valid() && Fits(c.kind, c.effect) && c !in conditions
      requires forall e :: e in conditions ==> !SameKey(e.Value(), c.Value())
      modifies this, c
      ensures Valid() && forall ch :: Own(ch) == old(Own(ch))
      ensures conditions == if ok then old(conditions) + [c] else old(conditions)
      ensures !c.effect.Other? ==> ok
      ensures Values() == if ok then old(Values()) + [c.Value()] else old(Values())
      ensures Started(old(c.Value()), c.Value(), player, old(ScaleWithout(Other)), roll, now)
    {
      hide Sum, Adds, Started;
      ghost var es := Values();
      assert forall x :: x in es ==> !SameKey(x, c.Value());
      ok := StartCondition(c, roll, now);
      if ok {
        conditions := conditions + [c];
        MoreValues(old(conditions), c);
        UniqueMore(es, c.Value());
      }
      forall ch ensures Own(ch) == old(Own(ch)) {
        SumConcat(es, [c.Value()], player, ch);
        SumOne(c.Value(), player, ch);
      }
    }

    /** Adds a condition, or refreshes the one it would repeat. */
    method AddCondition(c: Condition, suppressed: bool, roll: int, now: int) returns (ok: bool)
      requires Valid() && Fits(c.kind, c.effect) && c !in conditions
      modifies this, conditions, c
      ensures Valid() && forall ch :: Own(ch) == old(Own(ch))
      ensures suppressed ==> !ok && conditions == old(conditions) && Values() == old(Values())
      ensures forall k :: 0 <= k < |old(Values())| && SameKey(old(Values())[k], old(c.Value())) && !suppressed ==>
                && ok && conditions == old(conditions) && Values() == old(Values())[k := Values()[k]]
                && Refreshed(old(Values())[k], old(c.Value()), Values()[k], player,
                             old(ScaleWithout(Values()[k].effect)), roll, now)
      ensures !suppressed && (forall e :: e in old(Values()) ==> !SameKey(e, old(c.Value()))) ==>
                && conditions == (if ok then old(conditions) + [c] else old(conditions))
                && Values() == (if ok then old(Values()) + [c.Value()] else old(Values()))
                && Started(old(c.Value()), c.Value(), player, old(ScaleWithout(Other)), roll, now)
                && (!c.effect.Other? ==> ok)
    {
      hide Sum, Adds, Refreshed, Started;
      if suppressed {
        return false;
      }
      var index := GetCondition(c.kind, c.id, c.subId);
      if index >= 0 {
        assert SameKey(Values()[index], c.Value());
        OnlyOne(Values(), index, c.Value());
        hide Unique;
        RefreshAt(index, c, roll, now);
        return true;
      }
      hide Unique;
      ok := AddNew(c, roll, now);
    }

    /** Takes one condition off the list and ends it. */
    method RemoveAt(index: nat)
      requires Valid() && index < |conditions|
      modifies this`conditions, this`varSpeed, this`varSkills, this`varStats
      ensures Valid() && conditions == Erase(old(conditions), index) && Values() == Erase(old(Values()), index)
      ensures forall ch :: Own(ch) == old(Own(ch))
    {
      hide Sum, Adds;
      ghost var es := Values();
      var c := conditions[index];
      conditions := conditions[..index] + conditions[index + 1..];
      EndCondition(c);
      FewerValues(old(conditions), index);
      UniqueErase(es, index);
      forall ch ensures Own(ch) == old(Own(ch)) {
        SumErase(es, index, player, ch);
      }
    }

    /** Ends all conditions of a type. */
    method RemoveConditionsOfType(kind: int)
      requires Valid()
      modifies this`conditions, this`varSpeed, this`varSkills, this`varStats
      ensures Valid() && forall ch :: Own(ch) == old(Own(ch))
      ensures Values() == Without(old(Values()), (e: Entry) => e.kind == kind)
    {
      hide Sum, Adds, Unique;
      ghost var sort := (e: Entry) => e.kind == kind;
      var i := 0;
      while i < |conditions|
        invariant i <= |conditions| && Valid() && forall ch :: Own(ch) == old(Own(ch))
        invariant Without(Values(), sort) == Without(old(Values()), sort)
        invariant forall k :: 0 <= k < i ==> !sort(Values()[k])
        decreases |conditions| - i
      {
        if conditions[i].kind != kind {
          i := i + 1;
          continue;
        }
        WithoutErase(Values(), sort, i);
        RemoveAt(i);
      }
      WithoutNone(Values(), sort);
    }

    /** Ends all conditions of a type and id. */
    method RemoveConditionsOfId(kind: int, id: int)
      requires Valid()
      modifies this`conditions, this`varSpeed, this`varSkills, this`varStats
      ensures Valid() && forall ch :: Own(ch) == old(Own(ch))
      ensures Values() == Without(old(Values()), (e: Entry) => e.kind == kind && e.id == id)
    {
      hide Sum, Adds, Unique;
      ghost var sort := (e: Entry) => e.kind == kind && e.id == id;
      var i := 0;
      while i < |conditions|
        invariant i <= |conditions| && Valid() && forall ch :: Own(ch) == old(Own(ch))
        invariant Without(Values(), sort) == Without(old(Values()), sort)
        invariant forall k :: 0 <= k < i ==> !sort(Values()[k])
        decreases |conditions| - i
      {
        if conditions[i].kind != kind || conditions[i].id != id {
          i := i + 1;
          continue;
        }
        WithoutErase(Values(), sort, i);
        RemoveAt(i);
      }
      WithoutNone(Values(), sort);
    }

    /** Ends all conditions, or those that would be stored. */
    method RemoveConditions(onlyPersistent: bool)
      requires Valid()
      modifies this`conditions, this`varSpeed, this`varSkills, this`varStats
      ensures Valid() && forall ch :: Own(ch) == old(Own(ch))
      ensures Values() == Without(old(Values()), (e: Entry) => !onlyPersistent || IsPersistent(e.ticks, e.id))
      ensures !onlyPersistent ==> conditions == []
    {
      hide Sum, Adds, Unique;
      ghost var sort := (e: Entry) => !onlyPersistent || IsPersistent(e.ticks, e.id);
      var i := 0;
      while i < |conditions|
        invariant i <= |conditions| && Valid() && forall ch :: Own(ch) == old(Own(ch))
        invariant Without(Values(), sort) == Without(old(Values()), sort)
        invariant forall k :: 0 <= k < i ==> !sort(Values()[k])
        decreases |conditions| - i
      {
        if onlyPersistent && !IsPersistent(conditions[i].ticks, conditions[i].id) {
          i := i + 1;
          continue;
        }
        WithoutErase(Values(), sort, i);
        RemoveAt(i);
      }
      WithoutNone(Values(), sort);
      if !onlyPersistent {
        NothingLeft(old(Values()), sort);
        assert |Values()| == 0;
      }
    }

    /** Without conditions a creature is left with what is its own. */
    method Clear()
      requires Valid()
      modifies this`conditions, this`varSpeed, this`varSkills, this`varStats
      ensures Valid() && conditions == [] && forall ch :: Var(ch) == old(Own(ch))
    {
      hide Unique;
      RemoveConditions(false);
    }

    /** Ends one condition, if it is active. */
    method RemoveCondition(c: Condition)
      requires Valid()
      modifies this`conditions, this`varSpeed, this`varSkills, this`varStats
      ensures Valid() && forall ch :: Own(ch) == old(Own(ch))
      ensures c !in conditions && (c !in old(conditions) ==> conditions == old(conditions))
      ensures forall e :: e in old(conditions) && e != c ==> e in conditions
      ensures c in old(conditions) ==>
                exists k :: 0 <= k < |old(conditions)| && old(conditions)[k] == c
                            && conditions == Erase(old(conditions), k) && Values() == Erase(old(Values()), k)
    {
      hide Sum, Adds, Unique, Erase;
      for i := 0 to |conditions|
        invariant c !in conditions[..i] && Valid()
        invariant conditions == old(conditions) && forall ch :: Own(ch) == old(Own(ch))
      {
        if conditions[i] == c {
          ErasedOnly(conditions, i);
          RemoveAt(i);
          return;
        }
      }
    }

    /** Lets time pass for one condition; says whether it goes on. */
    method ExecuteCondition(c: Condition, interval: nat, now: int) returns (goesOn: bool)
      modifies c`ticks, c`endTime
      ensures !c.effect.Other? ==>
                && goesOn == (old(c.ticks) == -1 || old(c.endTime) >= now) && c.endTime == old(c.endTime)
                && c.ticks == (if old(c.ticks) == -1 then -1
                               else if old(c.ticks) > interval then old(c.ticks) - interval else 0)
    {
      if c.effect.Other? {
        c.ticks, c.endTime, goesOn := *, *, *;
        return;
      }
      if c.ticks == -1 {
        return true;
      }
      c.ticks := if c.ticks - interval > 0 then c.ticks - interval else 0;
      return c.endTime >= now;
    }

    /** Lets time pass for the condition at a place, and ends it if it is over. */
    method ExecuteAt(index: nat, interval: nat, now: int) returns (goesOn: bool)
      requires Valid() && index < |conditions|
      modifies this`conditions, this`varSpeed, this`varSkills, this`varStats, conditions[index]
      ensures Valid() && forall ch :: Own(ch) == old(Own(ch))
      ensures conditions == if goesOn then old(conditions) else Erase(old(conditions), index)
      ensures !old(conditions)[index].effect.Other? ==>
                && goesOn == (old(conditions[index].ticks) == -1 || old(conditions[index].endTime) >= now)
                && old(conditions)[index].ticks == (if old(conditions[index].ticks) == -1 then -1
                                                    else Max(0, old(conditions[index].ticks) - interval))
      ensures old(conditions)[index].effect == old(conditions[index].effect)
    {
      hide Sum, Adds;
      ghost var es := Values();
      goesOn := ExecuteCondition(conditions[index], interval, now);
      ghost var e := conditions[index].Value();
      OneChanged(es, Values(), index);
      UniqueChange(es, index, e);
      forall ch ensures Own(ch) == old(Own(ch)) {
        SumChange(es, index, e, player, ch);
      }
      if !goesOn {
        RemoveAt(index);
      }
    }

    lemma OnceOnly(i: nat)
      requires Valid() && i < |conditions|
      ensures conditions[i] !in conditions[..i] && conditions[i] !in conditions[i + 1..]
    {
      hide Unique;
    }

    /** Lets time pass for all conditions.  Those that are over end, and no others. */
    method ExecuteConditions(interval: nat, now: int) returns (ghost kept: seq<nat>)
      requires Valid()
      modifies this`conditions, this`varSpeed, this`varSkills, this`varStats, conditions
      ensures Valid() && forall ch :: Own(ch) == old(Own(ch))
      ensures forall c :: c in conditions ==> c in old(conditions)
      ensures forall c :: c in old(conditions) && !c.effect.Other? ==>
                (c in conditions <==> old(c.ticks) == -1 || old(c.endTime) >= now)
      ensures forall c :: c in conditions && !c.effect.Other? ==>
                c.ticks == if old(c.ticks) == -1 then -1 else Max(0, old(c.ticks) - interval)
      ensures InOrder(old(conditions), conditions, kept)
    {
      hide Sum, Adds, Unique, InOrder, Valid, Own, Erase;
      var i := 0;
      kept := seq(|conditions|, k => k);
      AllInOrder(conditions);
      while i < |conditions|
        invariant i <= |conditions| && Valid() && forall ch :: Own(ch) == old(Own(ch))
        invariant forall c :: c in conditions ==> c in old(conditions)
        invariant forall c :: c in old(conditions) ==> c.effect == old(c.effect)
        invariant forall c :: c in conditions[i..] ==>
                  c in old(conditions) && c.ticks == old(c.ticks) && c.endTime == old(c.endTime)
        invariant forall c :: c in conditions[..i] && c in old(conditions) && !c.effect.Other? ==>
                  old(c.ticks) == -1 || old(c.endTime) >= now
        invariant forall c :: c in old(conditions) && c !in conditions && !c.effect.Other? ==>
                    old(c.ticks) != -1 && old(c.endTime) < now
        invariant forall c :: c in conditions[..i] && !c.effect.Other? ==>
                    c.ticks == if old(c.ticks) == -1 then -1 else Max(0, old(c.ticks) - interval)
        invariant InOrder(old(conditions), conditions, kept)
        decreases |conditions| - i
      {
        ghost var cs := conditions;
        OnceOnly(i);
        assert cs[i] in cs[i..] && forall c :: c in cs[i + 1..] ==> c in cs[i..];
        var goesOn := ExecuteAt(i, interval, now);
        if goesOn {
          assert cs[..i + 1] == cs[..i] + [cs[i]];
          i := i + 1;
        } else {
          ErasedParts(cs, i);
          kept := FewerInOrder(old(conditions), cs, kept, i);
        }
      }
    }
  }

  /** While it lasts a new speed is added to a creature's own, and when it ends the creature is as it was. */
  method SpeedComesAndGoes(creature: Creature, c: Condition, roll: int, now: int) returns (ghost during: int)
    requires creature.Valid() && Fits(c.kind, c.effect) && c.effect.Speed? && c.effect.delta != 0
    requires c !in creature.conditions && forall e :: e in creature.Values() ==> !SameKey(e, c.Value())
    modifies creature, creature.conditions, c
    ensures during == old(creature.varSpeed) + old(c.effect.delta)
    ensures creature.Valid() && creature.varSpeed == old(creature.varSpeed)
    ensures creature.conditions == old(creature.conditions)
  {
    hide Unique;
    ghost var es := creature.Values();
    ghost var e := c.Value();
    var ok := creature.AddCondition(c, false, roll, now);
    SumConcat(es, [c.Value()], creature.player, SpeedChannel);
    SumOne(c.Value(), creature.player, SpeedChannel);
    during := creature.Var(SpeedChannel);
    assert creature.Own(SpeedChannel) == during - Sum(es + [c.Value()], creature.player, SpeedChannel);
    ghost var both := creature.conditions;
    creature.RemoveCondition(c);
    assert forall k :: 0 <= k < |both| && both[k] == c ==> k == |both| - 1;
    assert Erase(both, |both| - 1) == old(creature.conditions);
    assert Erase(es + [c.Value()], |es|) == es;
    assert creature.Own(SpeedChannel) == creature.Var(SpeedChannel) - Sum(es, creature.player, SpeedChannel);
  }

  /** Some of a list, at rising places. */
  ghost predicate InOrder(all: seq<Condition>, some: seq<Condition>, places: seq<nat>) {
    && |places| == |some| && (forall i, j :: 0 <= i < j < |places| ==> places[i] < places[j])
    && forall k :: 0 <= k < |some| ==> places[k] < |all| && some[k] == all[places[k]]
  }

  lemma AllInOrder(all: seq<Condition>)
    ensures InOrder(all, all, seq(|all|, k => k))
  {
  }

  lemma FewerInOrder(all: seq<Condition>, some: seq<Condition>, places: seq<nat>, k: nat) returns (fewer: seq<nat>)
    requires InOrder(all, some, places) && k < |some|
    ensures InOrder(all, Erase(some, k), fewer)
  {
    fewer := Erase(places, k);
  }

  twostate lemma SameValues(cs: seq<Condition>)
    requires forall c :: c in cs ==> unchanged(c)
    ensures ValuesOf(cs) == old(ValuesOf(cs))
  {
    forall i | 0 <= i < |cs| ensures cs[i].Value() == old(cs[i].Value()) {
      assert cs[i] in cs;
    }
  }

  lemma OneChanged(es: seq<Entry>, fs: seq<Entry>, k: nat)
    requires k < |es| == |fs| && forall i :: 0 <= i < |es| && i != k ==> fs[i] == es[i]
    ensures fs == es[k := fs[k]]
  {
  }

  lemma OnlyOne(es: seq<Entry>, k: nat, e: Entry)
    requires Unique(es) && k < |es| && SameKey(es[k], e)
    ensures forall i :: 0 <= i < |es| && SameKey(es[i], e) ==> i == k
  {
  }

  lemma MoreValues(cs: seq<Condition>, c: Condition)
    ensures ValuesOf(cs + [c]) == ValuesOf(cs) + [c.Value()]
  {
  }

  lemma FewerValues(cs: seq<Condition>, k: nat)
    requires k < |cs|
    ensures ValuesOf(Erase(cs, k)) == Erase(ValuesOf(cs), k)
  {
  }

  lemma UniqueChange(es: seq<Entry>, k: nat, e: Entry)
    requires Unique(es) && k < |es| && SameKey(es[k], e)
    ensures Unique(es[k := e])
  {
  }

  lemma UniqueMore(es: seq<Entry>, e: Entry)
    requires Unique(es) && forall x :: x in es ==> !SameKey(x, e)
    ensures Unique(es + [e])
  {
  }

  lemma UniqueErase(es: seq<Entry>, k: nat)
    requires Unique(es) && k < |es|
    ensures Unique(Erase(es, k))
  {
  }

  lemma ErasedParts(cs: seq<Condition>, k: nat)
    requires k < |cs|
    ensures |Erase(cs, k)| == |cs| - 1 && Erase(cs, k)[..k] == cs[..k] && Erase(cs, k)[k..] == cs[k + 1..]
    ensures forall c :: c in Erase(cs, k) ==> c in cs[..k] || c in cs[k + 1..]
    ensures forall c :: c in cs && c != cs[k] ==> c in Erase(cs, k)
  {
    assert cs == cs[..k] + [cs[k]] + cs[k + 1..];
  }

  lemma ErasedOnly(cs: seq<Condition>, k: nat)
    requires k < |cs| && cs[k] !in cs[..k] && forall i, j :: 0 <= i < j < |cs| ==> cs[i] != cs[j]
    ensures cs[k] !in Erase(cs, k) && forall c :: c in cs && c != cs[k] ==> c in Erase(cs, k)
  {
    forall c | c in cs && c != cs[k] ensures c in Erase(cs, k) {
      var i :| 0 <= i < |cs| && cs[i] == c;
      assert Erase(cs, k)[if i < k then i else i - 1] == c;
    }
  }
}
