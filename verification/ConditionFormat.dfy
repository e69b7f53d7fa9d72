/**
  How a player's conditions are stored: each one a run of attributes, a tag and a value of fixed size,
  closed by an end tag.  The first five attributes are the same for all conditions, and the first of
  them tells what kind of condition it is.
 */
module ConditionFormat {
  import opened NodeFormat
  import opened Wrappers
  import opened ConditionCommon

  const ATTR_TYPE := 1
  const ATTR_ID := 2
  const ATTR_TICKS := 3
  const ATTR_HEALTHTICKS := 4
  const ATTR_HEALTHGAIN := 5
  const ATTR_MANATICKS := 6
  const ATTR_MANAGAIN := 7
  const ATTR_DELAYED := 8
  const ATTR_OWNER := 9
  const ATTR_INTERVALDATA := 10
  const ATTR_SPEEDDELTA := 11
  const ATTR_FORMULA_MINA := 12
  const ATTR_FORMULA_MINB := 13
  const ATTR_FORMULA_MAXA := 14
  const ATTR_FORMULA_MAXB := 15
  const ATTR_LIGHTCOLOR := 16
  const ATTR_LIGHTLEVEL := 17
  const ATTR_LIGHTTICKS := 18
  const ATTR_LIGHTINTERVAL := 19
  const ATTR_SOULTICKS := 20
  const ATTR_SOULGAIN := 21
  const ATTR_SKILLS := 22
  const ATTR_STATS := 23
  const ATTR_OUTFIT := 24
  const ATTR_PERIODDAMAGE := 25
  const ATTR_BUFF := 26
  const ATTR_SUBID := 27
  const ATTR_END := 254

  type int32 = x: int | -0x8000_0000 <= x < 0x8000_0000
  type uint32 = x: int | 0 <= x < 0x1_0000_0000
  type uint16 = x: int | 0 <= x < 0x1_0000

  /** An outfit as it lies in memory, with the byte that fills it up. */
  datatype Outfit = Outfit(lookType: uint16, lookTypeEx: uint16, head: byte, body: byte, legs: byte, feet: byte,
                           addons: byte, pad: byte)

  /** What the kinds of conditions add.  The coefficients of a speed formula are kept as their 32 bits. */
  datatype Body =
    | Generic
    | Damage(delayed: bool, periodDamage: int32, owner: uint32, damageList: seq<Interval<int32>>)
    | Looks(outfits: seq<Outfit>)
    | Speed(looks: seq<Outfit>, delta: int32, mina: uint32, minb: uint32, maxa: uint32, maxb: uint32)
    | Light(color: uint32, level: uint32, lightTicks: uint32, lightInterval: uint32)
    | Regeneration(healthTicks: uint32, healthGain: uint32, manaTicks: uint32, manaGain: uint32)
    | Soul(soulTicks: uint32, soulGain: uint32)
    | Attributes(skills: seq<int32>, stats: seq<int32>, currentSkill: nat, currentStat: nat)

  datatype Condition = Condition(kind: int32, id: int32, ticks: int32, buff: bool, subId: uint32, body: Body)

  // ---------------------------------------------------------------- values

  function Bytes2(v: uint16): seq<byte> {
    [v % 0x100, v / 0x100]
  }

  function Bytes4(v: uint32): seq<byte> {
    var v1 := v / 0x100;
    var v2 := v1 / 0x100;
    [v % 0x100, v1 % 0x100, v2 % 0x100, v2 / 0x100]
  }

  function Unsigned(v: int32): uint32 {
    if v < 0 then v + 0x1_0000_0000 else v
  }

  function Signed(v: uint32): int32 {
    if v >= 0x8000_0000 then v - 0x1_0000_0000 else v
  }

  function Value2(s: seq<byte>): uint16
    requires |s| == 2
  {
    s[0] as int + s[1] as int * 0x100
  }

  function Value4(s: seq<byte>): uint32
    requires |s| == 4
  {
    s[0] as int + (s[1] as int + (s[2] as int + s[3] as int * 0x100) * 0x100) * 0x100
  }

  lemma ValuesReadBack(v: uint32, w: int32, u: uint16)
    ensures Value4(Bytes4(v)) == v && Value2(Bytes2(u)) == u && Signed(Value4(Bytes4(Unsigned(w)))) == w
  {
    BytesReadBack(v);
    BytesReadBack(Unsigned(w));
    hide Bytes4, Value4;
  }

  lemma BytesReadBack(v: uint32)
    ensures Value4(Bytes4(v)) == v
  {
    var v1 := v / 0x100;
    var v2 := v1 / 0x100;
    var s := Bytes4(v);
    assert s[2] as int + s[3] as int * 0x100 == v2;
  }

  function IntBytes(v: int32): seq<byte> {
    Bytes4(Unsigned(v))
  }

  function IntValue(s: seq<byte>): int32
    requires |s| == 4
  {
    Signed(Value4(s))
  }

  function BoolByte(b: bool): byte {
    if b then 1 else 0
  }

  function IntervalBytes(d: Interval<int32>): seq<byte> {
    IntBytes(d.timeLeft) + IntBytes(d.value) + IntBytes(d.interval)
  }

  function IntervalValue(s: seq<byte>): Interval<int32>
    requires |s| == 12
  {
    Interval(IntValue(s[..4]), IntValue(s[4..8]), IntValue(s[8..]))
  }

  function OutfitBytes(o: Outfit): seq<byte> {
    Bytes2(o.lookType) + Bytes2(o.lookTypeEx) + [o.head, o.body, o.legs, o.feet, o.addons, o.pad]
  }

  function OutfitValue(s: seq<byte>): Outfit
    requires |s| == 10
  {
    Outfit(Value2(s[..2]), Value2(s[2..4]), s[4], s[5], s[6], s[7], s[8], s[9])
  }

  lemma IntervalReadsBack(d: Interval<int32>)
    ensures |IntervalBytes(d)| == 12 && IntervalValue(IntervalBytes(d)) == d
  {
    hide Bytes4, Value4, Unsigned, Signed;
    var a, b, c := IntBytes(d.timeLeft), IntBytes(d.value), IntBytes(d.interval);
    IntReadsBack(d.timeLeft);
    IntReadsBack(d.value);
    IntReadsBack(d.interval);
    hide IntBytes, IntValue;
    var s := a + b + c;
    assert s[..4] == a && s[4..8] == b && s[8..] == c;
  }

  lemma IntReadsBack(v: int32)
    ensures |IntBytes(v)| == 4 && IntValue(IntBytes(v)) == v
  {
    ValuesReadBack(0, v, 0);
  }

  lemma OutfitReadsBack(o: Outfit)
    ensures |OutfitBytes(o)| == 10 && OutfitValue(OutfitBytes(o)) == o
  {
    hide Value2;
    var s := OutfitBytes(o);
    assert s[..2] == Bytes2(o.lookType) && s[2..4] == Bytes2(o.lookTypeEx);
    ValuesReadBack(0, 0, o.lookType);
    ValuesReadBack(0, 0, o.lookTypeEx);
  }

  // ---------------------------------------------------------------- kinds

  /** What a condition of a kind starts out with; none for a number that is no kind. */
  function Blank(kind: int32): Option<Body> {
    if kind in {1, 2, 4, 8, 0x8000, 0x4_0000, 0x8_0000, 0x10_0000} then Some(Damage(false, 0, 0, []))
    else if kind in {0x10, 0x20} then Some(Speed([], 0, 0, 0, 0, 0))
    else if kind == 0x40 then Some(Looks([]))
    else if kind == 0x100 then Some(Light(0, 0, 0, 0))
    else if kind == 0x2000 then Some(Regeneration(1000, 0, 1000, 0))
    else if kind == 0x4000 then Some(Soul(0, 0))
    else if kind == 0x2_0000 then Some(Attributes(seq(SKILLS, i => 0), seq(STATS, i => 0), 0, 0))
    else if kind in {0x80, 0x200, 0x400, 0x800, 0x1000, 0x1_0000, 0x20_0000, 0x40_0000, 0x80_0000} then Some(Generic)
    else None
  }

  function Create(kind: int32, id: int32, ticks: int32, buff: bool, subId: uint32): Option<Condition> {
    match Blank(kind)
    case None => None
    case Some(body) => Some(Condition(kind, id, if body.Damage? then 0 else ticks, buff, subId, body))
  }

  // ---------------------------------------------------------------- writing

  datatype Prop = Prop(attr: byte, value: seq<byte>)

  function Flatten(ps: seq<Prop>): seq<byte> {
    if ps == [] then [] else [ps[0].attr] + ps[0].value + Flatten(ps[1..])
  }

  function Header(c: Condition): seq<Prop> {
    [Prop(ATTR_TYPE, IntBytes(c.kind)), Prop(ATTR_ID, IntBytes(c.id)), Prop(ATTR_TICKS, IntBytes(c.ticks)),
     Prop(ATTR_BUFF, IntBytes(if c.buff then 1 else 0)), Prop(ATTR_SUBID, Bytes4(c.subId))]
  }

  function Intervals(ds: seq<Interval<int32>>): seq<Prop> {
    if ds == [] then [] else [Prop(ATTR_INTERVALDATA, IntervalBytes(ds[0]))] + Intervals(ds[1..])
  }

  function Outfits(os: seq<Outfit>): seq<Prop> {
    if os == [] then [] else [Prop(ATTR_OUTFIT, OutfitBytes(os[0]))] + Outfits(os[1..])
  }

  function Numbers(attr: byte, ns: seq<int32>): seq<Prop> {
    if ns == [] then [] else [Prop(attr, IntBytes(ns[0]))] + Numbers(attr, ns[1..])
  }

  function BodyProps(b: Body): seq<Prop> {
    match b
    case Generic => []
    case Damage(delayed, periodDamage, owner, ds) =>
      [Prop(ATTR_DELAYED, [BoolByte(delayed)]), Prop(ATTR_PERIODDAMAGE, IntBytes(periodDamage)),
       Prop(ATTR_OWNER, Bytes4(owner))]
      + Intervals(ds)
    case Looks(os) => Outfits(os)
    case Speed(os, delta, mina, minb, maxa, maxb) =>
      Outfits(os)
      + [Prop(ATTR_SPEEDDELTA, IntBytes(delta)), Prop(ATTR_FORMULA_MINA, Bytes4(mina)),
         Prop(ATTR_FORMULA_MINB, Bytes4(minb)), Prop(ATTR_FORMULA_MAXA, Bytes4(maxa)),
         Prop(ATTR_FORMULA_MAXB, Bytes4(maxb))]
    case Light(color, level, ticks, interval) =>
      [Prop(ATTR_LIGHTCOLOR, Bytes4(color)), Prop(ATTR_LIGHTLEVEL, Bytes4(level)), Prop(ATTR_LIGHTTICKS, Bytes4(ticks)),
       Prop(ATTR_LIGHTINTERVAL, Bytes4(interval))]
    case Regeneration(healthTicks, healthGain, manaTicks, manaGain) =>
      [Prop(ATTR_HEALTHTICKS, Bytes4(healthTicks)), Prop(ATTR_HEALTHGAIN, Bytes4(healthGain)),
       Prop(ATTR_MANATICKS, Bytes4(manaTicks)), Prop(ATTR_MANAGAIN, Bytes4(manaGain))]
    case Soul(soulTicks, soulGain) => [Prop(ATTR_SOULGAIN, Bytes4(soulGain)), Prop(ATTR_SOULTICKS, Bytes4(soulTicks))]
    case Attributes(skills, stats, _, _) => Numbers(ATTR_SKILLS, skills) + Numbers(ATTR_STATS, stats)
  }

  function Written(c: Condition): seq<byte> {
    Flatten(Header(c)) + Flatten(BodyProps(c.body))
  }

  /** All conditions of a player, each closed by an end tag. */
  function WrittenAll(cs: seq<Condition>): seq<byte> {
    if cs == [] then [] else Written(cs[0]) + [ATTR_END] + WrittenAll(cs[1..])
  }

  // ---------------------------------------------------------------- reading

  /** How many bytes the value of an attribute takes, if the kind of condition knows it. */
  function ValueSize(b: Body, attr: byte): Option<nat> {
    if b.Attributes? && attr == ATTR_SKILLS then (if b.currentSkill < |b.skills| then Some(4) else None)
    else if b.Attributes? && attr == ATTR_STATS then (if b.currentStat < |b.stats| then Some(4) else None)
    else if b.Regeneration? && attr in {ATTR_HEALTHTICKS, ATTR_HEALTHGAIN, ATTR_MANATICKS, ATTR_MANAGAIN} then Some(4)
    else if b.Soul? && attr in {ATTR_SOULGAIN, ATTR_SOULTICKS} then Some(4)
    else if b.Damage? && attr == ATTR_DELAYED then Some(1)
    else if b.Damage? && attr in {ATTR_PERIODDAMAGE, ATTR_OWNER} then Some(4)
    else if b.Damage? && attr == ATTR_INTERVALDATA then Some(12)
    else if b.Speed? && attr in {ATTR_SPEEDDELTA, ATTR_FORMULA_MINA, ATTR_FORMULA_MINB, ATTR_FORMULA_MAXA,
                                 ATTR_FORMULA_MAXB} then Some(4)
    else if (b.Speed? || b.Looks?) && attr == ATTR_OUTFIT then Some(10)
    else if b.Light? && attr in {ATTR_LIGHTCOLOR, ATTR_LIGHTLEVEL, ATTR_LIGHTTICKS, ATTR_LIGHTINTERVAL} then Some(4)
    else if attr in {ATTR_TYPE, ATTR_ID, ATTR_TICKS, ATTR_BUFF, ATTR_SUBID} then Some(4)
    else None
  }

  /** Adding up as 32-bit numbers do. */
  function Sum32(a: int32, b: int32): int32 {
    if a + b >= 0x8000_0000 then a + b - 0x1_0000_0000
    else if a + b < -0x8000_0000 then a + b + 0x1_0000_0000
    else a + b
  }

  /** A condition after an attribute is read. */
  function Apply(c: Condition, attr: byte, v: seq<byte>): Condition
    requires ValueSize(c.body, attr) == Some(|v|)
  {
    match c.body
    case Attributes(skills, stats, i, j) =>
      if attr == ATTR_SKILLS then c.(body := Attributes(skills[i := IntValue(v)], stats, i + 1, j))
      else if attr == ATTR_STATS then c.(body := Attributes(skills, stats[j := IntValue(v)], i, j + 1))
      else ApplyCommon(c, attr, v)
    case Regeneration(_, _, _, _) =>
      if attr == ATTR_HEALTHTICKS then c.(body := c.body.(healthTicks := Value4(v)))
      else if attr == ATTR_HEALTHGAIN then c.(body := c.body.(healthGain := Value4(v)))
      else if attr == ATTR_MANATICKS then c.(body := c.body.(manaTicks := Value4(v)))
      else if attr == ATTR_MANAGAIN then c.(body := c.body.(manaGain := Value4(v)))
      else ApplyCommon(c, attr, v)
    case Soul(_, _) =>
      if attr == ATTR_SOULGAIN then c.(body := c.body.(soulGain := Value4(v)))
      else if attr == ATTR_SOULTICKS then c.(body := c.body.(soulTicks := Value4(v)))
      else ApplyCommon(c, attr, v)
    case Damage(_, _, _, ds) =>
      if attr == ATTR_DELAYED then c.(body := c.body.(delayed := v[0] != 0))
      else if attr == ATTR_PERIODDAMAGE then c.(body := c.body.(periodDamage := IntValue(v)))
      else if attr == ATTR_OWNER then c.(body := c.body.(owner := Value4(v)))
      else if attr == ATTR_INTERVALDATA then
        c.(body := c.body.(damageList := ds + [IntervalValue(v)]),
           ticks := if c.ticks == -1 then -1 else Sum32(c.ticks, IntervalValue(v).interval))
      else ApplyCommon(c, attr, v)
    case Speed(os, _, _, _, _, _) =>
      if attr == ATTR_SPEEDDELTA then c.(body := c.body.(delta := IntValue(v)))
      else if attr == ATTR_FORMULA_MINA then c.(body := c.body.(mina := Value4(v)))
      else if attr == ATTR_FORMULA_MINB then c.(body := c.body.(minb := Value4(v)))
      else if attr == ATTR_FORMULA_MAXA then c.(body := c.body.(maxa := Value4(v)))
      else if attr == ATTR_FORMULA_MAXB then c.(body := c.body.(maxb := Value4(v)))
      else if attr == ATTR_OUTFIT then c.(body := c.body.(looks := os + [OutfitValue(v)]))
      else ApplyCommon(c, attr, v)
    case Looks(os) =>
      if attr == ATTR_OUTFIT then c.(body := Looks(os + [OutfitValue(v)])) else ApplyCommon(c, attr, v)
    case Light(_, _, _, _) =>
      if attr == ATTR_LIGHTCOLOR then c.(body := c.body.(color := Value4(v)))
      else if attr == ATTR_LIGHTLEVEL then c.(body := c.body.(level := Value4(v)))
      else if attr == ATTR_LIGHTTICKS then c.(body := c.body.(lightTicks := Value4(v)))
      else if attr == ATTR_LIGHTINTERVAL then c.(body := c.body.(lightInterval := Value4(v)))
      else ApplyCommon(c, attr, v)
    case Generic => ApplyCommon(c, attr, v)
  }

  function ApplyCommon(c: Condition, attr: byte, v: seq<byte>): Condition
    requires attr in {ATTR_TYPE, ATTR_ID, ATTR_TICKS, ATTR_BUFF, ATTR_SUBID} && |v| == 4
  {
    if attr == ATTR_TYPE then c.(kind := IntValue(v))
    else if attr == ATTR_ID then c.(id := IntValue(v))
    else if attr == ATTR_TICKS then c.(ticks := IntValue(v))
    else if attr == ATTR_BUFF then c.(buff := IntValue(v) != 0)
    else c.(subId := Value4(v))
  }

  datatype Reading = Read(c: Condition, rest: seq<byte>) | Failed(rest: seq<byte>)

  /** Reads attributes up to the end tag, or to the end of what there is. */
  function ReadProps(c: Condition, s: seq<byte>): (r: Reading)
    ensures |r.rest| <= |s|
    decreases |s|
  {
    if s == [] then Read(c, [])
    else if s[0] == ATTR_END then Read(c, s[1..])
    else
      match ValueSize(c.body, s[0])
      case None => Failed(s[1..])
      case Some(n) =>
        if |s| - 1 < n then Failed(s[1..]) else ReadProps(Apply(c, s[0], s[1..n + 1]), s[n + 1..])
  }


  /** Reads the five attributes all conditions begin with. */
  function ReadHeader(s: seq<byte>): (r: Option<(Condition, seq<byte>)>)
    ensures r.Some? ==> |r.value.1| < |s|
  {
    if |s| >= 25 && s[0] == ATTR_TYPE && s[5] == ATTR_ID && s[10] == ATTR_TICKS && s[15] == ATTR_BUFF
       && s[20] == ATTR_SUBID then
      match Create(IntValue(s[1..5]), IntValue(s[6..10]), IntValue(s[11..15]), Value4(s[16..20]) != 0,
                   Value4(s[21..25]))
      case None => None
      case Some(c) => Some((c, s[25..]))
    else None
  }

  /** Reads conditions for as long as there is one; what cannot be read to its end is dropped. */
  function ReadAll(s: seq<byte>): seq<Condition>
    decreases |s|
  {
    match ReadHeader(s)
    case None => []
    case Some(cs) =>
      match ReadProps(cs.0, cs.1)
      case Read(c, rest) => [c] + ReadAll(rest)
      case Failed(rest) => ReadAll(rest)
  }
}
