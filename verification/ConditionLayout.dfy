/** How stored conditions look, byte by byte. */
module ConditionLayout {
  import opened NodeFormat
  import opened Wrappers
  import opened ConditionCommon
  import opened ConditionFormat
  import opened ConditionRoundTrip

  /** Numbers are stored with their lowest byte first, negative ones as their complement. */
  lemma NumberBytes()
    ensures Bytes2(0x1234) == [0x34, 0x12] && Bytes4(0x1234_5678) == [0x78, 0x56, 0x34, 0x12]
    ensures IntBytes(5000) == [0x88, 0x13, 0, 0] && IntBytes(-40) == [0xD8, 0xFF, 0xFF, 0xFF]
    ensures IntBytes(-0x8000_0000) == [0, 0, 0, 0x80] && IntBytes(0x7FFF_FFFF) == [0xFF, 0xFF, 0xFF, 0x7F]
  {
  }

  lemma FlattenTwo(p: Prop, q: Prop)
    ensures Flatten([p, q]) == [p.attr] + p.value + [q.attr] + q.value
  {
    FlattenStep(p, [q]);
    FlattenStep(q, []);
  }

  lemma FlattenFour(p: Prop, q: Prop, r: Prop, t: Prop)
    ensures Flatten([p, q, r, t])
            == [p.attr] + p.value + [q.attr] + q.value + [r.attr] + r.value + [t.attr] + t.value
  {
    FlattenConcat([p, q], [r, t]);
    FlattenTwo(p, q);
    FlattenTwo(r, t);
    hide Flatten;
    assert [p, q] + [r, t] == [p, q, r, t];
  }

  lemma FlattenOne(p: Prop)
    ensures Flatten([p]) == [p.attr] + p.value
  {
    FlattenStep(p, []);
  }

  /** All conditions begin with type, id, ticks, whether they are a buff, and sub-id. */
  lemma StoredHeader(c: Condition)
    ensures Flatten(Header(c))
            == [1] + IntBytes(c.kind) + ([2] + IntBytes(c.id) + [3] + IntBytes(c.ticks)
               + [26] + [if c.buff then 1 else 0, 0, 0, 0] + [27] + Bytes4(c.subId))
  {
    hide Flatten, Bytes4;
    var ps := Header(c);
    FlattenStep(ps[0], ps[1..]);
    FlattenFour(ps[1], ps[2], ps[3], ps[4]);
    BuffBytes();
    hide IntBytes;
    assert ps == [ps[0]] + ps[1..] && ps[1..] == [ps[1], ps[2], ps[3], ps[4]];
  }

  lemma BuffBytes()
    ensures IntBytes(1) == [1, 0, 0, 0] && IntBytes(0) == [0, 0, 0, 0]
  {
  }

  lemma StoredLight(color: uint32, level: uint32, ticks: uint32, interval: uint32)
    ensures Flatten(BodyProps(Light(color, level, ticks, interval)))
            == [16] + Bytes4(color) + [17] + Bytes4(level) + [18] + Bytes4(ticks) + [19] + Bytes4(interval)
  {
    hide Flatten, Bytes4;
    var ps := BodyProps(Light(color, level, ticks, interval));
    FlattenFour(ps[0], ps[1], ps[2], ps[3]);
  }

  lemma StoredRegeneration(healthTicks: uint32, healthGain: uint32, manaTicks: uint32, manaGain: uint32)
    ensures Flatten(BodyProps(Regeneration(healthTicks, healthGain, manaTicks, manaGain)))
            == [4] + Bytes4(healthTicks) + [5] + Bytes4(healthGain) + [6] + Bytes4(manaTicks) + [7] + Bytes4(manaGain)
  {
    hide Flatten, Bytes4;
    var ps := BodyProps(Regeneration(healthTicks, healthGain, manaTicks, manaGain));
    FlattenFour(ps[0], ps[1], ps[2], ps[3]);
  }

  lemma StoredSoul(soulTicks: uint32, soulGain: uint32)
    ensures Flatten(BodyProps(Soul(soulTicks, soulGain))) == [21] + Bytes4(soulGain) + [20] + Bytes4(soulTicks)
  {
    hide Flatten, Bytes4;
    var ps := BodyProps(Soul(soulTicks, soulGain));
    FlattenTwo(ps[0], ps[1]);
  }

  /** Outfits, and then what a speed is made of. */
  lemma StoredSpeed(os: seq<Outfit>, delta: int32, mina: uint32, minb: uint32, maxa: uint32, maxb: uint32)
    ensures Flatten(BodyProps(Speed(os, delta, mina, minb, maxa, maxb)))
            == Flatten(BodyProps(Looks(os)))
               + ([11] + IntBytes(delta)
                  + ([12] + Bytes4(mina) + [13] + Bytes4(minb) + [14] + Bytes4(maxa) + [15] + Bytes4(maxb)))
  {
    hide Flatten, Bytes4, IntBytes;
    var ps := [Prop(ATTR_SPEEDDELTA, IntBytes(delta)), Prop(ATTR_FORMULA_MINA, Bytes4(mina)),
               Prop(ATTR_FORMULA_MINB, Bytes4(minb)), Prop(ATTR_FORMULA_MAXA, Bytes4(maxa)),
               Prop(ATTR_FORMULA_MAXB, Bytes4(maxb))];
    FlattenConcat(Outfits(os), ps);
    FlattenStep(ps[0], ps[1..]);
    FlattenFour(ps[1], ps[2], ps[3], ps[4]);
    assert ps == [ps[0]] + ps[1..] && ps[1..] == [ps[1], ps[2], ps[3], ps[4]];
  }

  /** One outfit after the other, each as it lies in memory. */
  lemma StoredLooks(o: Outfit, os: seq<Outfit>)
    ensures Flatten(BodyProps(Looks([]))) == []
    ensures Flatten(BodyProps(Looks([o] + os))) == [24] + OutfitBytes(o) + Flatten(BodyProps(Looks(os)))
    ensures OutfitBytes(o)
            == [o.lookType % 0x100, o.lookType / 0x100, o.lookTypeEx % 0x100, o.lookTypeEx / 0x100,
                o.head, o.body, o.legs, o.feet, o.addons, o.pad]
  {
    assert Outfits([o] + os) == [Prop(ATTR_OUTFIT, OutfitBytes(o))] + Outfits(os) by {
      assert ([o] + os)[1..] == os;
    }
    hide Outfits, OutfitBytes;
    FlattenStep(Prop(ATTR_OUTFIT, OutfitBytes(o)), Outfits(os));
  }

  /** What periodic damage is made of, and then one round after the other. */
  lemma StoredDamage(delayed: bool, periodDamage: int32, owner: uint32, ds: seq<Interval<int32>>)
    ensures Flatten(BodyProps(Damage(delayed, periodDamage, owner, ds)))
            == [8] + [if delayed then 1 else 0]
               + ([25] + IntBytes(periodDamage) + [9] + Bytes4(owner)) + Flatten(Intervals(ds))
  {
    hide Flatten, Bytes4, IntBytes, Intervals;
    var ps := [Prop(ATTR_DELAYED, [BoolByte(delayed)]), Prop(ATTR_PERIODDAMAGE, IntBytes(periodDamage)),
               Prop(ATTR_OWNER, Bytes4(owner))];
    FlattenConcat(ps, Intervals(ds));
    FlattenStep(ps[0], [ps[1], ps[2]]);
    FlattenTwo(ps[1], ps[2]);
    assert ps == [ps[0]] + [ps[1], ps[2]];
  }

  lemma StoredRound(d: Interval<int32>, ds: seq<Interval<int32>>)
    ensures Intervals([]) == []
    ensures Flatten(Intervals([d] + ds))
            == [10] + (IntBytes(d.timeLeft) + IntBytes(d.value) + IntBytes(d.interval)) + Flatten(Intervals(ds))
  {
    assert Intervals([d] + ds) == [Prop(ATTR_INTERVALDATA, IntervalBytes(d))] + Intervals(ds) by {
      assert ([d] + ds)[1..] == ds;
    }
    hide Intervals, IntBytes;
    FlattenStep(Prop(ATTR_INTERVALDATA, IntervalBytes(d)), Intervals(ds));
  }

  /** The skills in their order, and then the stats. */
  lemma StoredAttributes(skills: seq<int32>, stats: seq<int32>, i: nat, j: nat)
    ensures Flatten(BodyProps(Attributes(skills, stats, i, j)))
            == Flatten(Numbers(22, skills)) + Flatten(Numbers(23, stats))
  {
    FlattenConcat(Numbers(22, skills), Numbers(23, stats));
  }

  lemma StoredNumber(attr: byte, n: int32, ns: seq<int32>)
    ensures Numbers(attr, []) == []
    ensures Flatten(Numbers(attr, [n] + ns)) == [attr] + IntBytes(n) + Flatten(Numbers(attr, ns))
  {
    assert Numbers(attr, [n] + ns) == [Prop(attr, IntBytes(n))] + Numbers(attr, ns) by {
      assert ([n] + ns)[1..] == ns;
    }
    hide Numbers, IntBytes;
    FlattenStep(Prop(attr, IntBytes(n)), Numbers(attr, ns));
  }

  /** A condition is its header and what its kind stores; after each comes an end tag. */
  lemma StoredOne(c: Condition, cs: seq<Condition>)
    ensures WrittenAll([]) == []
    ensures WrittenAll([c] + cs) == Flatten(Header(c)) + Flatten(BodyProps(c.body)) + [254] + WrittenAll(cs)
    ensures Flatten(BodyProps(Generic)) == []
  {
    hide Flatten;
    assert ([c] + cs)[1..] == cs;
    assert Flatten([]) == [] by { NothingFlat(); }
  }

  lemma NothingFlat()
    ensures Flatten([]) == []
  {
  }

  /** Which types of conditions store what. */
  lemma KindsStore(kind: int32)
    ensures var b := Blank(kind);
            && (kind in {0x10, 0x20} <==> b.Some? && b.value.Speed?) && (kind == 0x40 <==> b.Some? && b.value.Looks?)
            && (kind == 0x100 <==> b.Some? && b.value.Light?) && (kind == 0x2000 <==> b.Some? && b.value.Regeneration?)
            && (kind == 0x4000 <==> b.Some? && b.value.Soul?) && (kind == 0x2_0000 <==> b.Some? && b.value.Attributes?)
            && (kind in {1, 2, 4, 8, 0x8000, 0x4_0000, 0x8_0000, 0x10_0000} <==> b.Some? && b.value.Damage?)
            && (kind in {0x80, 0x200, 0x400, 0x800, 0x1000, 0x1_0000, 0x20_0000, 0x40_0000, 0x80_0000}
                <==> b.Some? && b.value.Generic?)
  {
  }

  /** Attributes of the header are understood wherever they come, by all kinds. */
  lemma CommonAttributes(c: Condition, v: int32, u: uint32)
    ensures (forall attr: byte :: attr in {1, 2, 3, 26, 27} ==> ValueSize(c.body, attr) == Some(4))
            && |IntBytes(v)| == 4 && |Bytes4(u)| == 4
    ensures Apply(c, 1, IntBytes(v)) == c.(kind := v) && Apply(c, 2, IntBytes(v)) == c.(id := v)
    ensures Apply(c, 3, IntBytes(v)) == c.(ticks := v) && Apply(c, 26, IntBytes(v)) == c.(buff := v != 0)
    ensures Apply(c, 27, Bytes4(u)) == c.(subId := u)
  {
    IntReadsBack(v);
    ValuesReadBack(u, v, 0);
    hide IntBytes, IntValue, Bytes4, Value4;
  }

  /** An attribute that a kind does not know ends a condition, which is dropped; what follows is read as a new one. */
  lemma UnknownEndsCondition(c: Condition, attr: byte, t: seq<byte>)
    requires attr != 254 && ValueSize(c.body, attr) == None
    ensures ReadProps(c, [attr] + t) == Failed(t)
  {
    assert ([attr] + t)[1..] == t;
  }

  /** So does a value that is cut off. */
  lemma CutOffEndsCondition(c: Condition, attr: byte, t: seq<byte>)
    requires attr != 254 && ValueSize(c.body, attr).Some? && |t| < ValueSize(c.body, attr).value
    ensures ReadProps(c, [attr] + t) == Failed(t)
  {
    assert ([attr] + t)[1..] == t;
  }

  /** Ticks wrap around like 32-bit numbers. */
  lemma TicksWrap(a: int32, b: int32)
    ensures -0x8000_0000 <= a + b < 0x8000_0000 ==> Sum32(a, b) == a + b
    ensures a + b >= 0x8000_0000 ==> Sum32(a, b) == a + b - 0x1_0000_0000
    ensures a + b < -0x8000_0000 ==> Sum32(a, b) == a + b + 0x1_0000_0000
  {
  }
}
