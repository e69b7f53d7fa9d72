/**
  What active conditions owe a creature: every change a condition makes to its speed, skills or stats is
  taken back, to the point, when the condition ends or is replaced.
 */
module ConditionLedger {
  import opened ConditionCommon
  import opened Arithmetic

  datatype Effect =
    | Speed(delta: int)
    | Attributes(skills: seq<int>, skillsPercent: seq<int>, stats: seq<int>, statsPercent: seq<int>)
    | Other

  datatype Entry = Entry(kind: int, id: int, subId: nat, ticks: int, endTime: int, effect: Effect)

  /** A number of a creature that conditions change. */
  datatype Channel = SpeedChannel | SkillChannel(skill: nat) | StatChannel(stat: nat)

  /** What a condition adds to a channel, on a player or on another creature. */
  function Adds(e: Effect, player: bool, ch: Channel): int {
    match e
    case Speed(delta) => if ch == SpeedChannel then delta else 0
    case Attributes(skills, _, stats, _) =>
      if player && ch.SkillChannel? && ch.skill < |skills| then skills[ch.skill]
      else if player && ch.StatChannel? && ch.stat < |stats| then stats[ch.stat]
      else 0
    case Other => 0
  }

  function Sum(es: seq<Entry>, player: bool, ch: Channel): int {
    if es == [] then 0 else Adds(es[0].effect, player, ch) + Sum(es[1..], player, ch)
  }

  predicate SameKey(a: Entry, b: Entry) {
    a.kind == b.kind && a.id == b.id && a.subId == b.subId
  }

  /** No two conditions have the same type, id and sub-id. */
  predicate Unique(es: seq<Entry>) {
    forall i, j :: 0 <= i < j < |es| ==> !SameKey(es[i], es[j])
  }

  predicate Sized(e: Effect) {
    e.Attributes? ==> |e.skills| == |e.skillsPercent| == SKILLS && |e.stats| == |e.statsPercent| == STATS
  }

  const CONDITION_HASTE := 0x10
  const CONDITION_PARALYZE := 0x20
  const CONDITION_ATTRIBUTES := 0x2_0000

  /** The type of a condition tells what it does. */
  predicate Fits(kind: int, e: Effect) {
    && (e.Speed? <==> kind == CONDITION_HASTE || kind == CONDITION_PARALYZE)
    && (e.Attributes? <==> kind == CONDITION_ATTRIBUTES)
    && Sized(e)
  }

  lemma {:induction false} SumConcat(es: seq<Entry>, fs: seq<Entry>, player: bool, ch: Channel)
    ensures Sum(es + fs, player, ch) == Sum(es, player, ch) + Sum(fs, player, ch)
  {
    if es == [] {
      assert es + fs == fs;
    } else {
      SumConcat(es[1..], fs, player, ch);
      assert (es + fs)[1..] == es[1..] + fs;
    }
  }

  lemma SumOne(e: Entry, player: bool, ch: Channel)
    ensures Sum([e], player, ch) == Adds(e.effect, player, ch)
  {
    assert [e][1..] == [];
  }

  lemma SumChange(es: seq<Entry>, k: nat, e: Entry, player: bool, ch: Channel)
    requires k < |es|
    ensures Sum(es[k := e], player, ch)
            == Sum(es, player, ch) - Adds(es[k].effect, player, ch) + Adds(e.effect, player, ch)
  {
    assert es == es[..k] + [es[k]] + es[k + 1..] && es[k := e] == es[..k] + [e] + es[k + 1..];
    SumConcat(es[..k] + [es[k]], es[k + 1..], player, ch);
    SumConcat(es[..k], [es[k]], player, ch);
    SumConcat(es[..k] + [e], es[k + 1..], player, ch);
    SumConcat(es[..k], [e], player, ch);
    SumOne(es[k], player, ch);
    SumOne(e, player, ch);
  }

  function Erase<T>(xs: seq<T>, k: nat): seq<T>
    requires k < |xs|
  {
    xs[..k] + xs[k + 1..]
  }

  lemma SumErase(es: seq<Entry>, k: nat, player: bool, ch: Channel)
    requires k < |es|
    ensures Sum(Erase(es, k), player, ch) == Sum(es, player, ch) - Adds(es[k].effect, player, ch)
  {
    assert es == es[..k] + [es[k]] + es[k + 1..];
    SumConcat(es[..k] + [es[k]], es[k + 1..], player, ch);
    SumConcat(es[..k], [es[k]], player, ch);
    SumConcat(es[..k], es[k + 1..], player, ch);
    SumOne(es[k], player, ch);
  }

  /** When a condition ends, if it does: an end time is set only for a positive duration. */
  function EndTime(before: int, ticks: int, now: int): int {
    if ticks > 0 then now + ticks else before
  }

  /** What percentages are taken of: skills as they are at the time, and stats without any changes. */
  datatype Scale = Scale(skills: seq<int>, stats: seq<int>)

  predicate Full(of: Scale) {
    |of.skills| == SKILLS && |of.stats| == STATS
  }

  /** The scale for a player with these skills, changes and stats, once some effect is gone. */
  function WithoutIt(levels: seq<int>, changes: seq<int>, defaults: seq<int>, e: Effect, player: bool): Scale
    requires |levels| == |changes| == SKILLS && |defaults| == STATS
  {
    Scale(seq(SKILLS, i requires 0 <= i < SKILLS =>
                Max(0, levels[i] + changes[i] - Adds(e, player, SkillChannel(i)))),
          defaults)
  }

  /** How many points a percentage is, counted from a hundred; what is not a whole point is cut off. */
  function Points(value: int, percent: int): int {
    if percent == 0 then 0 else Truncated(value * (percent - 100), 100)
  }

  /** On a player, percentages become points. */
  function Pointed(e: Effect, player: bool, of: Scale): Effect
    requires Sized(e) && Full(of)
  {
    if !player || !e.Attributes? then e
    else
      e.(skills := seq(SKILLS, i requires 0 <= i < SKILLS => e.skills[i] + Points(of.skills[i], e.skillsPercent[i])),
         stats := seq(STATS, i requires 0 <= i < STATS => e.stats[i] + Points(of.stats[i], e.statsPercent[i])))
  }

  /** Without percentages nothing changes; half as much again of 15 are 7 points, and a third less are -5. */
  lemma PointsExamples(e: Effect, player: bool, of: Scale)
    requires Sized(e) && Full(of)
    ensures (e.Attributes? ==> (forall i :: 0 <= i < SKILLS ==> e.skillsPercent[i] == 0)
                               && (forall i :: 0 <= i < STATS ==> e.statsPercent[i] == 0)) ==>
              Pointed(e, player, of) == e
    ensures !player ==> Pointed(e, player, of) == e
    ensures Points(15, 150) == 7 && Points(15, 66) == -5 && Points(15, 100) == 0 && Points(15, 0) == 0
    ensures forall percent :: percent != 0 ==> Points(100, percent) == percent - 100
  {
    if e.Attributes? && player {
      var e' := Pointed(e, player, of);
      assert (forall i :: 0 <= i < SKILLS ==> e.skillsPercent[i] == 0) ==> e'.skills == e.skills;
      assert (forall i :: 0 <= i < STATS ==> e.statsPercent[i] == 0) ==> e'.stats == e.stats;
    }
  }

  /** Skills are counted with all other changes to them, but never below nothing, and stats without any. */
  lemma ScaleExactly(levels: seq<int>, changes: seq<int>, defaults: seq<int>, e: Effect, player: bool, i: nat)
    requires |levels| == |changes| == SKILLS && |defaults| == STATS && i < SKILLS
    ensures var of, skill := WithoutIt(levels, changes, defaults, e, player),
                             levels[i] + changes[i] - Adds(e, player, SkillChannel(i));
            Full(of) && of.skills[i] == (if skill < 0 then 0 else skill) && of.stats == defaults
  {
  }

  /** On a player the points and what a condition gives anyway add up, skill by skill and stat by stat. */
  lemma PointedAdds(e: Effect, of: Scale, ch: Channel)
    requires Sized(e) && Full(of) && e.Attributes?
    ensures Adds(Pointed(e, true, of), true, ch)
            == match ch
               case SpeedChannel => 0
               case SkillChannel(i) => if i < SKILLS then e.skills[i] + Points(of.skills[i], e.skillsPercent[i]) else 0
               case StatChannel(i) => if i < STATS then e.stats[i] + Points(of.stats[i], e.statsPercent[i]) else 0
    ensures Adds(e, false, ch) == 0
  {
  }

  /** Haste and paralysis change the speed by as much as they say, and nothing else. */
  lemma SpeedAdds(delta: int, player: bool, ch: Channel)
    ensures Adds(Speed(delta), player, ch) == if ch == SpeedChannel then delta else 0
    ensures Adds(Other, player, ch) == 0
  {
  }

  /** A speed of 0 stands for one that is drawn by lot. */
  function Rolled(e: Effect, roll: int): Effect {
    if e.Speed? && e.delta == 0 then Speed(roll) else e
  }

  /** What a condition is after it has begun. */
  predicate Started(e: Entry, e': Entry, player: bool, of: Scale, roll: int, now: int)
    requires Sized(e.effect) && Full(of)
  {
    && SameKey(e, e') && e'.ticks == e.ticks && e'.endTime == EndTime(e.endTime, e.ticks, now)
    && e'.effect == Pointed(Rolled(e.effect, roll), player, of)
  }

  /** What a condition is after a new one of the same kind has come: the same as before, or as good as the new one. */
  predicate Refreshed(e: Entry, next: Entry, e': Entry, player: bool, of: Scale, roll: int, now: int)
    requires Sized(next.effect) && Full(of)
  {
    && SameKey(e, e')
    && match e.effect
       case Other => e'.effect == Other
       case Speed(_) =>
         if e.ticks == -1 && next.ticks > 0 then e' == e
         else
           && e'.ticks == next.ticks && e'.endTime == EndTime(e.endTime, next.ticks, now)
           && e'.effect == Rolled(next.effect, roll)
       case Attributes(_, _, _, _) =>
         if !Updates(e, next, now) then e' == e
         else
           && e'.ticks == next.ticks && e'.endTime == EndTime(e.endTime, next.ticks, now)
           && e'.effect == Pointed(next.effect, player, of)
  }

  /** The conditions that are not of some sort. */
  function Without(es: seq<Entry>, sort: Entry -> bool): seq<Entry> {
    if es == [] then [] else (if sort(es[0]) then [] else [es[0]]) + Without(es[1..], sort)
  }

  lemma {:induction false} WithoutErase(es: seq<Entry>, sort: Entry -> bool, k: nat)
    requires k < |es| && sort(es[k])
    ensures Without(Erase(es, k), sort) == Without(es, sort)
  {
    if k == 0 {
      assert Erase(es, 0) == es[1..];
    } else {
      WithoutErase(es[1..], sort, k - 1);
      assert Erase(es, k)[0] == es[0] && Erase(es, k)[1..] == Erase(es[1..], k - 1);
    }
  }

  lemma {:induction false} WithoutNone(es: seq<Entry>, sort: Entry -> bool)
    requires forall e :: e in es ==> !sort(e)
    ensures Without(es, sort) == es
  {
    if es != [] {
      WithoutNone(es[1..], sort);
    }
  }

  lemma {:induction false} NothingLeft(es: seq<Entry>, sort: Entry -> bool)
    requires forall e :: e in es ==> sort(e)
    ensures Without(es, sort) == []
  {
    if es != [] {
      NothingLeft(es[1..], sort);
    }
  }

  /** When a refreshed condition takes over from the one that is there. */
  predicate Updates(e: Entry, next: Entry, now: int) {
    e.kind == next.kind && (e.ticks != -1 || next.ticks < 1) && (next.ticks < 0 || e.endTime <= now + next.ticks)
  }

  /** What begins with time to run ends when that time is over. */
  lemma StartedLasts(e: Entry, e': Entry, player: bool, of: Scale, roll: int, now: int)
    requires Sized(e.effect) && Full(of) && Started(e, e', player, of, roll, now)
    ensures e'.ticks == e.ticks && (e.ticks > 0 ==> e'.endTime == now + e.ticks)
    ensures e.effect.Speed? ==> e'.effect == if e.effect.delta == 0 then Speed(roll) else e.effect
    ensures e.ticks <= 0 ==> e'.endTime == e.endTime
  {
  }

  /** Skills and stats last as long as the longer of two conditions; what lasts for ever goes on doing so. */
  lemma RefreshedLasts(e: Entry, next: Entry, e': Entry, player: bool, of: Scale, roll: int, now: int)
    requires Sized(next.effect) && Full(of) && Refreshed(e, next, e', player, of, roll, now)
    requires e.effect.Attributes? && SameKey(e, next)
    ensures e.ticks == -1 && next.ticks > 0 ==> e' == e
    ensures e.ticks != -1 && next.ticks > 0 ==>
              e'.endTime == if e.endTime > now + next.ticks then e.endTime else now + next.ticks
    ensures e.ticks != -1 && next.ticks > 0 && e.endTime > now + next.ticks ==> e' == e
    ensures e.ticks != -1 && next.ticks > 0 && e.endTime <= now + next.ticks ==>
              e'.ticks == next.ticks && e'.effect == Pointed(next.effect, player, of)
    ensures next.ticks < 0 ==> e'.ticks == next.ticks && e'.effect == Pointed(next.effect, player, of)
    ensures next.ticks == 0 && e.endTime > now ==> e' == e
  {
  }

  /** A new speed always takes over, even if it ends earlier, unless the old one lasts for ever. */
  lemma SpeedTakesOver(e: Entry, next: Entry, e': Entry, player: bool, of: Scale, roll: int, now: int)
    requires Sized(next.effect) && Full(of) && Refreshed(e, next, e', player, of, roll, now) && e.effect.Speed?
    ensures e.ticks == -1 && next.ticks > 0 ==> e' == e
    ensures e.ticks != -1 && next.ticks > 0 ==> e'.ticks == next.ticks && e'.endTime == now + next.ticks
    ensures e.ticks != -1 || next.ticks <= 0 ==>
              && (next.effect.Speed? && next.effect.delta != 0 ==> e'.effect == next.effect)
              && (next.effect == Speed(0) ==> e'.effect == Speed(roll))
  {
  }
}
