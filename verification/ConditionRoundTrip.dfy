/** Conditions read back are the conditions written, and end where the writing ended. */
module ConditionRoundTrip {
  import opened NodeFormat
  import opened Wrappers
  import opened ConditionCommon
  import opened ConditionFormat

  /** The kind of a condition agrees with what it carries. */
  predicate WellFormed(c: Condition) {
    match Blank(c.kind)
    case None => false
    case Some(b) =>
      && (b.Generic? <==> c.body.Generic?) && (b.Damage? <==> c.body.Damage?) && (b.Looks? <==> c.body.Looks?)
      && (b.Speed? <==> c.body.Speed?) && (b.Light? <==> c.body.Light?) && (b.Regeneration? <==> c.body.Regeneration?)
      && (b.Soul? <==> c.body.Soul?) && (b.Attributes? <==> c.body.Attributes?)
      && (c.body.Attributes? ==> |c.body.skills| == SKILLS && |c.body.stats| == STATS)
  }

  /** How long the damage of a list takes, counted from `t`. */
  function SumTicks(t: int32, ds: seq<Interval<int32>>): int32
    decreases |ds|
  {
    if ds == [] then t else SumTicks(if t == -1 then -1 else Sum32(t, ds[0].interval), ds[1..])
  }

  /** What reading gives back: all that is stored, but the ticks of a damage condition are counted anew. */
  function Rebuilt(c: Condition): Condition {
    match c.body
    case Damage(_, _, _, ds) => c.(ticks := SumTicks(0, ds))
    case Attributes(skills, stats, _, _) => c.(body := Attributes(skills, stats, SKILLS, STATS))
    case Generic => c
    case Looks(_) => c
    case Speed(_, _, _, _, _, _) => c
    case Light(_, _, _, _) => c
    case Regeneration(_, _, _, _) => c
    case Soul(_, _) => c
  }

  function RebuiltAll(cs: seq<Condition>): seq<Condition> {
    if cs == [] then [] else [Rebuilt(cs[0])] + RebuiltAll(cs[1..])
  }

  // ---------------------------------------------------------------- reading attribute by attribute

  /** Every attribute is known when its turn comes, and its value has the right size. */
  predicate Readable(c: Condition, ps: seq<Prop>)
    decreases |ps|
  {
    ps == [] ||
    (ps[0].attr != ATTR_END && ValueSize(c.body, ps[0].attr) == Some(|ps[0].value|)
     && Readable(Apply(c, ps[0].attr, ps[0].value), ps[1..]))
  }

  function ApplyAll(c: Condition, ps: seq<Prop>): Condition
    requires Readable(c, ps)
    decreases |ps|
  {
    if ps == [] then c else ApplyAll(Apply(c, ps[0].attr, ps[0].value), ps[1..])
  }

  lemma {:induction false} ReadFlatten(c: Condition, ps: seq<Prop>, t: seq<byte>)
    requires Readable(c, ps)
    ensures ReadProps(c, Flatten(ps) + [ATTR_END] + t) == Read(ApplyAll(c, ps), t)
    decreases |ps|
  {
    hide Apply, ValueSize;
    var s := Flatten(ps) + [ATTR_END] + t;
    if ps == [] {
      assert s[1..] == t;
    } else {
      var n, more := |ps[0].value|, Flatten(ps[1..]) + [ATTR_END] + t;
      Spell(ps[0].attr, ps[0].value, Flatten(ps[1..]), t);
      ReadFlatten(Apply(c, ps[0].attr, ps[0].value), ps[1..], t);
      ReadOne(c, s, n);
    }
  }

  lemma Spell(attr: byte, v: seq<byte>, more: seq<byte>, t: seq<byte>)
    ensures var s := [attr] + v + more + [ATTR_END] + t;
            s[0] == attr && s[1..|v| + 1] == v && s[|v| + 1..] == more + [ATTR_END] + t
  {
  }

  lemma ReadOne(c: Condition, s: seq<byte>, n: nat)
    requires |s| > n && s[0] != ATTR_END && ValueSize(c.body, s[0]) == Some(n)
    ensures ReadProps(c, s) == ReadProps(Apply(c, s[0], s[1..n + 1]), s[n + 1..])
  {
  }

  lemma {:induction false} ReadableConcat(c: Condition, ps: seq<Prop>, qs: seq<Prop>)
    requires Readable(c, ps) && Readable(ApplyAll(c, ps), qs)
    ensures Readable(c, ps + qs) && ApplyAll(c, ps + qs) == ApplyAll(ApplyAll(c, ps), qs)
    decreases |ps|
  {
    hide Apply, ValueSize;
    if ps == [] {
      assert ps + qs == qs;
    } else {
      ReadableConcat(Apply(c, ps[0].attr, ps[0].value), ps[1..], qs);
      assert (ps + qs)[1..] == ps[1..] + qs;
    }
  }

  lemma {:induction false} FlattenConcat(ps: seq<Prop>, qs: seq<Prop>)
    ensures Flatten(ps + qs) == Flatten(ps) + Flatten(qs)
  {
    if ps == [] {
      assert ps + qs == qs;
    } else {
      FlattenConcat(ps[1..], qs);
      assert ps + qs == [ps[0]] + (ps[1..] + qs);
      FlattenStep(ps[0], ps[1..] + qs);
      Associative([ps[0].attr] + ps[0].value, Flatten(ps[1..]), Flatten(qs));
    }
  }

  lemma Associative(a: seq<byte>, b: seq<byte>, c: seq<byte>)
    ensures a + (b + c) == (a + b) + c
  {
  }

  /** One attribute at the front. */
  lemma ReadableStep(c: Condition, p: Prop, ps: seq<Prop>)
    requires p.attr != ATTR_END && ValueSize(c.body, p.attr) == Some(|p.value|)
    requires Readable(Apply(c, p.attr, p.value), ps)
    ensures Readable(c, [p] + ps) && ApplyAll(c, [p] + ps) == ApplyAll(Apply(c, p.attr, p.value), ps)
  {
    assert ([p] + ps)[1..] == ps;
  }

  // ---------------------------------------------------------------- lists

  lemma {:induction false} IntervalsReadBack(c: Condition, ds: seq<Interval<int32>>)
    requires c.body.Damage?
    ensures Readable(c, Intervals(ds))
    ensures ApplyAll(c, Intervals(ds))
            == c.(body := c.body.(damageList := c.body.damageList + ds), ticks := SumTicks(c.ticks, ds))
    decreases |ds|
  {
    hide IntervalBytes, IntervalValue;
    if ds != [] {
      IntervalReadsBack(ds[0]);
      var p := Prop(ATTR_INTERVALDATA, IntervalBytes(ds[0]));
      var c' := Apply(c, p.attr, p.value);
      IntervalsReadBack(c', ds[1..]);
      ReadableStep(c, p, Intervals(ds[1..]));
      assert c.body.damageList + [ds[0]] + ds[1..] == c.body.damageList + ds;
    } else {
      assert c.body.damageList + ds == c.body.damageList;
    }
  }

  lemma {:induction false} OutfitsReadBack(c: Condition, os: seq<Outfit>)
    requires c.body.Looks? || c.body.Speed?
    ensures Readable(c, Outfits(os))
    ensures ApplyAll(c, Outfits(os))
            == c.(body := if c.body.Looks? then Looks(c.body.outfits + os) else c.body.(looks := c.body.looks + os))
    decreases |os|
  {
    hide OutfitBytes, OutfitValue;
    if os != [] {
      OutfitReadsBack(os[0]);
      var p := Prop(ATTR_OUTFIT, OutfitBytes(os[0]));
      var c' := Apply(c, p.attr, p.value);
      OutfitsReadBack(c', os[1..]);
      ReadableStep(c, p, Outfits(os[1..]));
      Regroup(if c.body.Looks? then c.body.outfits else c.body.looks, os);
    } else {
      var looks := if c.body.Looks? then c.body.outfits else c.body.looks;
      assert looks + os == looks;
    }
  }

  lemma Regroup<T>(xs: seq<T>, ys: seq<T>)
    requires ys != []
    ensures xs + [ys[0]] + ys[1..] == xs + ys
  {
  }

  /** The numbers fill the places from `i` on. */
  function Filled(xs: seq<int32>, i: nat, ns: seq<int32>): seq<int32>
    requires i + |ns| <= |xs|
  {
    xs[..i] + ns + xs[i + |ns|..]
  }

  lemma FilledStep(xs: seq<int32>, i: nat, ns: seq<int32>)
    requires i + |ns| <= |xs| && ns != []
    ensures Filled(xs[i := ns[0]], i + 1, ns[1..]) == Filled(xs, i, ns)
  {
  }

  lemma FilledWhole(xs: seq<int32>, ns: seq<int32>)
    requires |ns| == |xs|
    ensures Filled(xs, 0, ns) == ns
  {
  }

  lemma {:induction false} SkillsReadBack(c: Condition, ns: seq<int32>)
    requires c.body.Attributes? && c.body.currentSkill + |ns| <= |c.body.skills|
    ensures Readable(c, Numbers(ATTR_SKILLS, ns))
    ensures var b := c.body;
            ApplyAll(c, Numbers(ATTR_SKILLS, ns))
            == c.(body := Attributes(Filled(b.skills, b.currentSkill, ns), b.stats, b.currentSkill + |ns|,
                                     b.currentStat))
    decreases |ns|
  {
    hide IntBytes, IntValue, Filled;
    if ns != [] {
      IntReadsBack(ns[0]);
      var p := Prop(ATTR_SKILLS, IntBytes(ns[0]));
      SkillsReadBack(Apply(c, p.attr, p.value), ns[1..]);
      ReadableStep(c, p, Numbers(ATTR_SKILLS, ns[1..]));
      FilledStep(c.body.skills, c.body.currentSkill, ns);
    } else {
      FilledNothing(c.body.skills, c.body.currentSkill);
    }
  }

  lemma FilledNothing(xs: seq<int32>, i: nat)
    requires i <= |xs|
    ensures Filled(xs, i, []) == xs
  {
  }

  lemma {:induction false} StatsReadBack(c: Condition, ns: seq<int32>)
    requires c.body.Attributes? && c.body.currentStat + |ns| <= |c.body.stats|
    ensures Readable(c, Numbers(ATTR_STATS, ns))
    ensures var b := c.body;
            ApplyAll(c, Numbers(ATTR_STATS, ns))
            == c.(body := Attributes(b.skills, Filled(b.stats, b.currentStat, ns), b.currentSkill,
                                     b.currentStat + |ns|))
    decreases |ns|
  {
    hide IntBytes, IntValue, Filled;
    if ns != [] {
      IntReadsBack(ns[0]);
      var p := Prop(ATTR_STATS, IntBytes(ns[0]));
      StatsReadBack(Apply(c, p.attr, p.value), ns[1..]);
      ReadableStep(c, p, Numbers(ATTR_STATS, ns[1..]));
      FilledStep(c.body.stats, c.body.currentStat, ns);
    } else {
      FilledNothing(c.body.stats, c.body.currentStat);
    }
  }

  // ---------------------------------------------------------------- whole conditions

  /** What one starts from when reading: the header, and nothing of the body. */
  function Start(c: Condition): Condition
    requires WellFormed(c)
  {
    c.(body := Blank(c.kind).value, ticks := if c.body.Damage? then 0 else c.ticks)
  }

  lemma DamageReadsBack(c: Condition)
    requires WellFormed(c) && c.body.Damage?
    ensures Readable(Start(c), BodyProps(c.body)) && ApplyAll(Start(c), BodyProps(c.body)) == Rebuilt(c)
  {
    hide IntervalBytes, IntervalValue, Bytes4, Value4, IntBytes, IntValue, Blank, Intervals;
    assert Start(c).body == Damage(false, 0, 0, []) by { BlankDamage(c.kind); }
    var b := c.body;
    IntReadsBack(b.periodDamage);
    BytesReadBack(b.owner);
    FourBytes(b.owner);
    var p1 := Prop(ATTR_DELAYED, [BoolByte(b.delayed)]);
    var p2, p3 := Prop(ATTR_PERIODDAMAGE, IntBytes(b.periodDamage)), Prop(ATTR_OWNER, Bytes4(b.owner));
    var c3 := Start(c).(body := b.(damageList := []));
    IntervalsReadBack(c3, b.damageList);
    assert [] + b.damageList == b.damageList;
    var c2 := c3.(body := c3.body.(owner := 0));
    var c1 := c2.(body := c2.body.(periodDamage := 0));
    ReadableStep(c2, p3, Intervals(b.damageList));
    ReadableStep(c1, p2, [p3] + Intervals(b.damageList));
    ReadableStep(Start(c), p1, [p2] + ([p3] + Intervals(b.damageList)));
    assert BodyProps(b) == [p1] + ([p2] + ([p3] + Intervals(b.damageList)));
  }

  lemma BlankDamage(kind: int32)
    requires Blank(kind).Some? && Blank(kind).value.Damage?
    ensures Blank(kind) == Some(Damage(false, 0, 0, []))
  {
  }

  lemma BlankSpeed(kind: int32)
    requires Blank(kind).Some? && Blank(kind).value.Speed?
    ensures Blank(kind) == Some(Speed([], 0, 0, 0, 0, 0))
  {
  }

  lemma FourBytes(v: uint32)
    ensures |Bytes4(v)| == 4
  {
  }

  function SpeedProps(delta: int32, mina: uint32, minb: uint32, maxa: uint32, maxb: uint32): seq<Prop> {
    [Prop(ATTR_SPEEDDELTA, IntBytes(delta)), Prop(ATTR_FORMULA_MINA, Bytes4(mina)),
     Prop(ATTR_FORMULA_MINB, Bytes4(minb)), Prop(ATTR_FORMULA_MAXA, Bytes4(maxa)),
     Prop(ATTR_FORMULA_MAXB, Bytes4(maxb))]
  }

  lemma SpeedNumbersReadBack(c: Condition)
    requires c.body.Speed?
    ensures var b := c.body;
            var c0, ps := c.(body := Speed(b.looks, 0, 0, 0, 0, 0)),
                SpeedProps(b.delta, b.mina, b.minb, b.maxa, b.maxb);
            Readable(c0, ps) && ApplyAll(c0, ps) == c
  {
    hide Bytes4, Value4, IntBytes, IntValue, Readable, ApplyAll;
    var b := c.body;
    IntReadsBack(b.delta);
    BytesReadBack(b.mina);
    BytesReadBack(b.minb);
    BytesReadBack(b.maxa);
    BytesReadBack(b.maxb);
    FourBytes(b.mina);
    FourBytes(b.minb);
    FourBytes(b.maxa);
    FourBytes(b.maxb);
    Steps5(c.(body := Speed(b.looks, 0, 0, 0, 0, 0)), c.(body := Speed(b.looks, b.delta, 0, 0, 0, 0)),
           c.(body := Speed(b.looks, b.delta, b.mina, 0, 0, 0)),
           c.(body := Speed(b.looks, b.delta, b.mina, b.minb, 0, 0)),
           c.(body := Speed(b.looks, b.delta, b.mina, b.minb, b.maxa, 0)), c,
           SpeedProps(b.delta, b.mina, b.minb, b.maxa, b.maxb));
  }

  lemma SpeedReadsBack(c: Condition)
    requires WellFormed(c) && c.body.Speed?
    ensures Readable(Start(c), BodyProps(c.body)) && ApplyAll(Start(c), BodyProps(c.body)) == Rebuilt(c)
  {
    hide Bytes4, IntBytes, Blank, Outfits, Readable, ApplyAll, Apply, ValueSize;
    BlankSpeed(c.kind);
    var b := c.body;
    OutfitsReadBack(Start(c), b.looks);
    assert [] + b.looks == b.looks;
    SpeedNumbersReadBack(c);
    ReadableConcat(Start(c), Outfits(b.looks), SpeedProps(b.delta, b.mina, b.minb, b.maxa, b.maxb));
  }

  predicate OneStep(c: Condition, p: Prop, c': Condition) {
    p.attr != ATTR_END && ValueSize(c.body, p.attr) == Some(|p.value|) && Apply(c, p.attr, p.value) == c'
  }

  lemma Steps1(c0: Condition, c1: Condition, ps: seq<Prop>)
    requires |ps| == 1 && OneStep(c0, ps[0], c1)
    ensures Readable(c0, ps) && ApplyAll(c0, ps) == c1
  {
    assert ps[1..] == [];
  }

  lemma Steps2(c0: Condition, c1: Condition, c2: Condition, ps: seq<Prop>)
    requires |ps| == 2 && OneStep(c0, ps[0], c1) && OneStep(c1, ps[1], c2)
    ensures Readable(c0, ps) && ApplyAll(c0, ps) == c2
  {
    hide Apply, ValueSize;
    Steps1(c1, c2, ps[1..]);
  }

  lemma Steps4(c0: Condition, c1: Condition, c2: Condition, c3: Condition, c4: Condition, ps: seq<Prop>)
    requires |ps| == 4 && OneStep(c0, ps[0], c1) && OneStep(c1, ps[1], c2) && OneStep(c2, ps[2], c3)
    requires OneStep(c3, ps[3], c4)
    ensures Readable(c0, ps) && ApplyAll(c0, ps) == c4
  {
    hide Apply, ValueSize;
    Steps2(c2, c3, c4, ps[1..][1..]);
  }

  lemma Steps5(c0: Condition, c1: Condition, c2: Condition, c3: Condition, c4: Condition, c5: Condition, ps: seq<Prop>)
    requires |ps| == 5 && OneStep(c0, ps[0], c1) && OneStep(c1, ps[1], c2) && OneStep(c2, ps[2], c3)
    requires OneStep(c3, ps[3], c4) && OneStep(c4, ps[4], c5)
    ensures Readable(c0, ps) && ApplyAll(c0, ps) == c5
  {
    hide Apply, ValueSize;
    Steps4(c1, c2, c3, c4, c5, ps[1..]);
  }

  lemma LightReadsBack(c: Condition)
    requires WellFormed(c) && c.body.Light?
    ensures Readable(Start(c), BodyProps(c.body)) && ApplyAll(Start(c), BodyProps(c.body)) == Rebuilt(c)
  {
    hide Bytes4, Value4;
    var b, c0 := c.body, Start(c);
    BytesReadBack(b.color);
    BytesReadBack(b.level);
    BytesReadBack(b.lightTicks);
    BytesReadBack(b.lightInterval);
    FourBytes(b.color);
    FourBytes(b.level);
    FourBytes(b.lightTicks);
    FourBytes(b.lightInterval);
    Steps4(c0, c.(body := Light(b.color, 0, 0, 0)), c.(body := Light(b.color, b.level, 0, 0)),
           c.(body := Light(b.color, b.level, b.lightTicks, 0)), c, BodyProps(b));
  }

  lemma RegenerationReadsBack(c: Condition)
    requires WellFormed(c) && c.body.Regeneration?
    ensures Readable(Start(c), BodyProps(c.body)) && ApplyAll(Start(c), BodyProps(c.body)) == Rebuilt(c)
  {
    hide Bytes4, Value4;
    var b, c0 := c.body, Start(c);
    BytesReadBack(b.healthTicks);
    BytesReadBack(b.healthGain);
    BytesReadBack(b.manaTicks);
    BytesReadBack(b.manaGain);
    FourBytes(b.healthTicks);
    FourBytes(b.healthGain);
    FourBytes(b.manaTicks);
    FourBytes(b.manaGain);
    Steps4(c0, c.(body := Regeneration(b.healthTicks, 0, 1000, 0)),
           c.(body := Regeneration(b.healthTicks, b.healthGain, 1000, 0)),
           c.(body := Regeneration(b.healthTicks, b.healthGain, b.manaTicks, 0)), c, BodyProps(b));
  }

  lemma SoulReadsBack(c: Condition)
    requires WellFormed(c) && c.body.Soul?
    ensures Readable(Start(c), BodyProps(c.body)) && ApplyAll(Start(c), BodyProps(c.body)) == Rebuilt(c)
  {
    hide Bytes4, Value4;
    var b, c0 := c.body, Start(c);
    BytesReadBack(b.soulTicks);
    BytesReadBack(b.soulGain);
    FourBytes(b.soulTicks);
    FourBytes(b.soulGain);
    Steps2(c0, c.(body := Soul(0, b.soulGain)), c, BodyProps(b));
  }

  lemma BlankAttributes(kind: int32)
    requires Blank(kind).Some? && Blank(kind).value.Attributes?
    ensures Blank(kind) == Some(Attributes(seq(SKILLS, i => 0), seq(STATS, i => 0), 0, 0))
  {
  }

  lemma AttributesReadBack(c: Condition)
    requires WellFormed(c) && c.body.Attributes?
    ensures Readable(Start(c), BodyProps(c.body)) && ApplyAll(Start(c), BodyProps(c.body)) == Rebuilt(c)
  {
    hide Blank, Numbers, Filled;
    BlankAttributes(c.kind);
    var b, c0 := c.body, Start(c);
    SkillsReadBack(c0, b.skills);
    FilledWhole(c0.body.skills, b.skills);
    var c1 := c0.(body := Attributes(b.skills, c0.body.stats, SKILLS, 0));
    StatsReadBack(c1, b.stats);
    FilledWhole(c1.body.stats, b.stats);
    ReadableConcat(c0, Numbers(ATTR_SKILLS, b.skills), Numbers(ATTR_STATS, b.stats));
  }

  lemma LooksReadBack(c: Condition)
    requires WellFormed(c) && c.body.Looks?
    ensures Readable(Start(c), BodyProps(c.body)) && ApplyAll(Start(c), BodyProps(c.body)) == Rebuilt(c)
  {
    OutfitsReadBack(Start(c), c.body.outfits);
    assert [] + c.body.outfits == c.body.outfits;
  }

  lemma GenericReadsBack(c: Condition)
    requires WellFormed(c) && c.body.Generic?
    ensures Readable(Start(c), BodyProps(c.body)) && ApplyAll(Start(c), BodyProps(c.body)) == Rebuilt(c)
  {
  }

  lemma BodyReadsBack(c: Condition)
    requires WellFormed(c)
    ensures Readable(Start(c), BodyProps(c.body)) && ApplyAll(Start(c), BodyProps(c.body)) == Rebuilt(c)
  {
    hide *;
    match c.body
    case Generic => GenericReadsBack(c);
    case Damage(_, _, _, _) => DamageReadsBack(c);
    case Looks(_) => LooksReadBack(c);
    case Speed(_, _, _, _, _, _) => SpeedReadsBack(c);
    case Light(_, _, _, _) => LightReadsBack(c);
    case Regeneration(_, _, _, _) => RegenerationReadsBack(c);
    case Soul(_, _) => SoulReadsBack(c);
    case Attributes(_, _, _, _) => AttributesReadBack(c);
  }

  function HeaderBytes(c: Condition): seq<byte> {
    [ATTR_TYPE] + IntBytes(c.kind) + [ATTR_ID] + IntBytes(c.id) + [ATTR_TICKS] + IntBytes(c.ticks)
    + [ATTR_BUFF] + IntBytes(if c.buff then 1 else 0) + [ATTR_SUBID] + Bytes4(c.subId)
  }

  lemma HeaderFlat(c: Condition)
    ensures Flatten(Header(c)) == HeaderBytes(c)
  {
    hide IntBytes, Bytes4;
    var ps := Header(c);
    FlattenStep(ps[4], []);
    FlattenStep(ps[3], [ps[4]]);
    FlattenStep(ps[2], [ps[3], ps[4]]);
    FlattenStep(ps[1], [ps[2], ps[3], ps[4]]);
    FlattenStep(ps[0], [ps[1], ps[2], ps[3], ps[4]]);
    hide Flatten;
    assert ps == [ps[0]] + [ps[1], ps[2], ps[3], ps[4]];
  }

  lemma FlattenStep(p: Prop, ps: seq<Prop>)
    ensures Flatten([p] + ps) == [p.attr] + p.value + Flatten(ps)
  {
    assert ([p] + ps)[1..] == ps;
  }

  lemma HeaderSlices(c: Condition, t: seq<byte>)
    ensures var s := HeaderBytes(c) + t;
            && |s| >= 25 && s[0] == ATTR_TYPE && s[5] == ATTR_ID && s[10] == ATTR_TICKS && s[15] == ATTR_BUFF
            && s[20] == ATTR_SUBID
            && s[1..5] == IntBytes(c.kind) && s[6..10] == IntBytes(c.id) && s[11..15] == IntBytes(c.ticks)
            && s[16..20] == IntBytes(if c.buff then 1 else 0) && s[21..25] == Bytes4(c.subId) && s[25..] == t
  {
    IntReadsBack(c.kind);
    IntReadsBack(c.id);
    IntReadsBack(c.ticks);
    IntReadsBack(if c.buff then 1 else 0);
    FourBytes(c.subId);
    hide IntBytes, Bytes4;
  }

  lemma HeaderReadsBack(c: Condition, t: seq<byte>)
    requires WellFormed(c)
    ensures ReadHeader(HeaderBytes(c) + t) == Some((Start(c), t))
  {
    hide HeaderBytes, IntBytes, IntValue, Bytes4, Blank;
    HeaderSlices(c, t);
    IntReadsBack(c.kind);
    IntReadsBack(c.id);
    IntReadsBack(c.ticks);
    BytesReadBack(c.subId);
    BuffReadsBack(c.buff);
    assert Blank(c.kind).value.Damage? <==> c.body.Damage?;
  }

  lemma BuffReadsBack(buff: bool)
    ensures |IntBytes(if buff then 1 else 0)| == 4
    ensures Value4(IntBytes(if buff then 1 else 0)) != 0 <==> buff
  {
    BytesReadBack(if buff then 1 else 0);
  }

  /** A condition is read back from exactly the bytes it was written to. */
  lemma ConditionReadsBack(c: Condition, t: seq<byte>)
    requires WellFormed(c)
    ensures ReadHeader(Written(c) + [ATTR_END] + t).Some?
    ensures var (c', s') := ReadHeader(Written(c) + [ATTR_END] + t).value; ReadProps(c', s') == Read(Rebuilt(c), t)
  {
    hide ReadHeader, ReadProps, Flatten, BodyProps, HeaderBytes, Rebuilt, Start, Readable, ApplyAll, WellFormed;
    var body := Flatten(BodyProps(c.body));
    HeaderFlat(c);
    assert Written(c) + [ATTR_END] + t == HeaderBytes(c) + (body + [ATTR_END] + t);
    HeaderReadsBack(c, body + [ATTR_END] + t);
    BodyReadsBack(c);
    ReadFlatten(Start(c), BodyProps(c.body), t);
  }

  /** All conditions of a player come back, in order, with nothing left over. */
  lemma {:induction false} ConditionsRoundTrip(cs: seq<Condition>)
    requires forall c :: c in cs ==> WellFormed(c)
    ensures ReadAll(WrittenAll(cs)) == RebuiltAll(cs)
  {
    hide ReadHeader, ReadProps, Written, Rebuilt, WellFormed;
    if cs == [] {
      assert ReadHeader([]) == None by { NoHeader(); }
    } else {
      ConditionReadsBack(cs[0], WrittenAll(cs[1..]));
      ConditionsRoundTrip(cs[1..]);
    }
  }

  lemma NoHeader()
    ensures ReadHeader([]) == None
  {
  }

  // ---------------------------------------------------------------- when nothing at all is changed

  function Lasting(ds: seq<Interval<int32>>): int {
    if ds == [] then 0 else ds[0].interval + Lasting(ds[1..])
  }

  lemma {:induction false} TicksAreSum(t: int32, ds: seq<Interval<int32>>)
    requires t >= 0 && forall d :: d in ds ==> d.interval >= 0
    requires t + Lasting(ds) < 0x8000_0000
    ensures SumTicks(t, ds) == t + Lasting(ds)
    decreases |ds|
  {
    if ds != [] {
      assert ds[0] in ds;
      LastingNotNegative(ds[1..]);
      TicksAreSum(t + ds[0].interval, ds[1..]);
    }
  }

  lemma {:induction false} LastingNotNegative(ds: seq<Interval<int32>>)
    requires forall d :: d in ds ==> d.interval >= 0
    ensures Lasting(ds) >= 0
  {
    if ds != [] {
      assert ds[0] in ds;
      LastingNotNegative(ds[1..]);
    }
  }

  /** A condition comes back unchanged exactly if it deals no damage over time or lasts as long as its list says. */
  lemma UnchangedIff(c: Condition)
    requires WellFormed(c)
    requires c.body.Attributes? ==> c.body.currentSkill == SKILLS && c.body.currentStat == STATS
    requires c.body.Damage? ==>
              (forall d :: d in c.body.damageList ==> d.interval >= 0) && Lasting(c.body.damageList) < 0x8000_0000
    ensures Rebuilt(c) == c <==> !c.body.Damage? || c.ticks == Lasting(c.body.damageList)
  {
    if c.body.Damage? {
      TicksAreSum(0, c.body.damageList);
    }
  }
}
