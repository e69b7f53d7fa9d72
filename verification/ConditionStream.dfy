/** The code that stores conditions and loads them. */
module ConditionStream {
  import opened NodeFormat
  import opened Wrappers
  import opened ConditionCommon
  import opened ConditionFormat
  import opened ConditionRoundTrip

  /** A buffer that grows as values are added. */
  class PropWriteStream {
    var buffer: array<byte>
    var size: nat

    ghost predicate Valid()
      reads this
    {
      size <= buffer.Length
    }

    ghost function Contents(): seq<byte>
      requires Valid()
      reads this, buffer
    {
      buffer[..size]
    }

    constructor ()
      ensures Valid() && fresh(buffer) && Contents() == []
    {
      buffer := new byte[32](i => 0);
      size := 0;
    }

    /** Makes room for `n` more bytes, in steps of 32. */
    method MakeRoom(n: nat)
      requires Valid()
      modifies this`buffer
      ensures Valid() && (buffer == old(buffer) || fresh(buffer))
      ensures Contents() == old(Contents()) && buffer.Length - size >= n
    {
      if buffer.Length - size < n {
        var bigger := new byte[buffer.Length + (n + 0x1F) / 0x20 * 0x20](i => 0);
        for i := 0 to size
          invariant buffer == old(buffer) && bigger[..i] == buffer[..i]
        {
          bigger[i] := buffer[i];
        }
        buffer := bigger;
      }
    }

    /** Copies a value behind what is there. */
    method AddValue(v: seq<byte>)
      requires Valid()
      modifies this, buffer
      ensures Valid() && (buffer == old(buffer) || fresh(buffer))
      ensures Contents() == old(Contents()) + v
    {
      MakeRoom(|v|);
      ghost var before, b := Contents(), buffer;
      for i := 0 to |v|
        invariant buffer == b && buffer.Length - size >= |v| && size == old(size)
        invariant forall k :: 0 <= k < size ==> buffer[k] == before[k]
        invariant forall k :: 0 <= k < i ==> buffer[size + k] == v[k]
      {
        buffer[size + i] := v[i];
      }
      FilledUp(buffer[..], before, v);
      size := size + |v|;
    }

    method AddProp(p: Prop)
      requires Valid()
      modifies this, buffer
      ensures Valid() && (buffer == old(buffer) || fresh(buffer))
      ensures Contents() == old(Contents()) + ([p.attr] + p.value)
    {
      AddValue([p.attr]);
      AddValue(p.value);
    }
  }

  lemma FilledUp(b: seq<byte>, before: seq<byte>, v: seq<byte>)
    requires |b| >= |before| + |v|
    requires forall k :: 0 <= k < |before| ==> b[k] == before[k]
    requires forall k :: 0 <= k < |v| ==> b[|before| + k] == v[k]
    ensures b[..|before| + |v|] == before + v
  {
    assert b[|before|..|before| + |v|] == v;
    assert b[..|before|] == before;
  }

  /** A place in some bytes. */
  class PropStream {
    const data: seq<byte>
    var p: nat

    ghost predicate Valid()
      reads this
    {
      p <= |data|
    }

    ghost function Rest(): seq<byte>
      requires Valid()
      reads this
    {
      data[p..]
    }

    constructor (data: seq<byte>)
      ensures Valid() && Rest() == data
    {
      this.data, p := data, 0;
    }

    /** The next `n` bytes, if there are as many. */
    method GetValue(n: nat) returns (ok: bool, v: seq<byte>)
      requires Valid()
      modifies this
      ensures Valid() && (ok <==> n <= |old(Rest())|)
      ensures ok ==> v == old(Rest())[..n] && Rest() == old(Rest())[n..]
      ensures !ok ==> Rest() == old(Rest())
    {
      if |data| - p < n {
        return false, [];
      }
      v := data[p..p + n];
      p := p + n;
      ok := true;
    }

    /** The value of an attribute, if that attribute is next.  What was read of it stays read. */
    method GetAttribute(attr: byte) returns (ok: bool, v: seq<byte>)
      requires Valid()
      modifies this
      ensures Valid()
      ensures ok <==> |old(Rest())| >= 5 && old(Rest())[0] == attr
      ensures ok ==> v == old(Rest())[1..5] && Rest() == old(Rest())[5..]
      ensures |Rest()| <= |old(Rest())|
    {
      var got;
      got, v := GetValue(1);
      if !got || v[0] != attr {
        return false, [];
      }
      ok, v := GetValue(4);
    }
  }

  class LiveCondition {
    var kind: int32
    var id: int32
    var ticks: int32
    var buff: bool
    var subId: uint32
    var body: Body

    ghost function Value(): Condition
      reads this
    {
      Condition(kind, id, ticks, buff, subId, body)
    }

    method Get() returns (c: Condition)
      ensures c == Value()
    {
      c := Condition(kind, id, ticks, buff, subId, body);
    }

    constructor (c: Condition)
      ensures Value() == c
    {
      kind, id, ticks, buff, subId, body := c.kind, c.id, c.ticks, c.buff, c.subId, c.body;
    }

    /** Writes the attributes of all conditions, and then those of this kind. */
    method Serialize(out: PropWriteStream)
      requires out.Valid()
      modifies out, out.buffer
      ensures out.Valid() && (out.buffer == old(out.buffer) || fresh(out.buffer))
      ensures out.Contents() == old(out.Contents()) + Written(Value())
    {
      hide Header, BodyProps, Flatten;
      var c := Condition(kind, id, ticks, buff, subId, body);
      ghost var before := out.Contents();
      WriteProps(Header(c), out);
      WriteProps(BodyProps(body), out);
      assert before + Flatten(Header(c)) + Flatten(BodyProps(body)) == before + Written(c);
    }

    /** Reads the value of one attribute. */
    method UnserializeProp(attr: byte, propStream: PropStream) returns (ok: bool)
      requires propStream.Valid()
      modifies this, propStream
      ensures propStream.Valid()
      ensures var c, s := old(Value()), old(propStream.Rest());
              match ValueSize(c.body, attr)
              case None => !ok && propStream.Rest() == s && Value() == c
              case Some(n) =>
                if n <= |s| then ok && propStream.Rest() == s[n..] && Value() == Apply(c, attr, s[..n])
                else !ok && propStream.Rest() == s && Value() == c
    {
      var size := ValueSize(body, attr);
      if size.None? {
        return false;
      }
      var v;
      ok, v := propStream.GetValue(size.value);
      if !ok {
        return false;
      }
      var c := Apply(Condition(kind, id, ticks, buff, subId, body), attr, v);
      kind, id, ticks, buff, subId, body := c.kind, c.id, c.ticks, c.buff, c.subId, c.body;
    }

    /** Reads attributes up to the end tag. */
    method Unserialize(propStream: PropStream) returns (ok: bool)
      requires propStream.Valid()
      modifies this, propStream
      ensures propStream.Valid()
      ensures var r := ReadProps(old(Value()), old(propStream.Rest()));
              propStream.Rest() == r.rest && (ok <==> r.Read?) && (ok ==> Value() == r.c)
    {
      hide ReadProps;
      ghost var r := ReadProps(Value(), propStream.Rest());
      while true
        invariant propStream.Valid() && ReadProps(Value(), propStream.Rest()) == r
        decreases |propStream.Rest()|
      {
        ReadStep(Value(), propStream.Rest());
        var got, attr := propStream.GetValue(1);
        if !got || attr[0] == ATTR_END {
          return true;
        }
        ok := UnserializeProp(attr[0], propStream);
        if !ok {
          return false;
        }
      }
    }
  }

  lemma ReadStep(c: Condition, s: seq<byte>)
    ensures ReadProps(c, s) == if s == [] then Read(c, [])
                               else if s[0] == ATTR_END then Read(c, s[1..])
                               else
                                 match ValueSize(c.body, s[0])
                                 case None => Failed(s[1..])
                                 case Some(n) =>
                                   if n <= |s[1..]| then ReadProps(Apply(c, s[0], s[1..][..n]), s[1..][n..])
                                       else Failed(s[1..])
  {
    hide Apply;
    if s != [] && s[0] != ATTR_END {
      match ValueSize(c.body, s[0]) {
        case None =>
        case Some(n) =>
          if n <= |s[1..]| {
            assert s[1..][..n] == s[1..n + 1] && s[1..][n..] == s[n + 1..];
          }
      }
    }
  }

  method WriteProps(ps: seq<Prop>, out: PropWriteStream)
    requires out.Valid()
    modifies out, out.buffer
    ensures out.Valid() && (out.buffer == old(out.buffer) || fresh(out.buffer))
    ensures out.Contents() == old(out.Contents()) + Flatten(ps)
  {
    hide Flatten;
    ghost var before := out.Contents();
    FlattenNone(ps[..0]);
    for i := 0 to |ps|
      invariant out.Valid() && (out.buffer == old(out.buffer) || fresh(out.buffer))
      invariant out.Contents() == before + Flatten(ps[..i])
    {
      FlattenLast(ps, i);
      out.AddProp(ps[i]);
    }
    assert ps[..|ps|] == ps;
  }

  lemma FlattenNone(ps: seq<Prop>)
    requires ps == []
    ensures Flatten(ps) == []
  {
  }

  lemma FlattenLast(ps: seq<Prop>, i: nat)
    requires i < |ps|
    ensures Flatten(ps[..i + 1]) == Flatten(ps[..i]) + ([ps[i].attr] + ps[i].value)
  {
    assert ps[..i + 1] == ps[..i] + [ps[i]];
    FlattenConcat(ps[..i], [ps[i]]);
    FlattenStep(ps[i], []);
  }

  /** The next condition, as far as the attributes all conditions begin with. */
  method CreateCondition(propStream: PropStream) returns (condition: LiveCondition?)
    requires propStream.Valid()
    modifies propStream
    ensures propStream.Valid() && |propStream.Rest()| <= |old(propStream.Rest())|
    ensures condition == null <==> ReadHeader(old(propStream.Rest())) == None
    ensures condition != null ==>
              fresh(condition) && Some((condition.Value(), propStream.Rest())) == ReadHeader(old(propStream.Rest()))
  {
    hide IntValue, Value4, Create;
    condition := null;
    ghost var s := propStream.Rest();
    var ok, kind := propStream.GetAttribute(ATTR_TYPE);
    if !ok { return; }
    var id;
    ok, id := propStream.GetAttribute(ATTR_ID);
    if !ok { return; }
    var ticks;
    ok, ticks := propStream.GetAttribute(ATTR_TICKS);
    if !ok { return; }
    var buff;
    ok, buff := propStream.GetAttribute(ATTR_BUFF);
    if !ok { return; }
    var subId;
    ok, subId := propStream.GetAttribute(ATTR_SUBID);
    if !ok { return; }
    Slices(s);
    var c := Create(IntValue(kind), IntValue(id), IntValue(ticks), Value4(buff) != 0, Value4(subId));
    if c.Some? {
      condition := new LiveCondition(c.value);
    }
  }

  lemma Slices(s: seq<byte>)
    requires |s| >= 25
    ensures s[5..][1..5] == s[6..10] && s[5..][5..] == s[10..] && s[10..][1..5] == s[11..15] && s[10..][5..] == s[15..]
    ensures s[15..][1..5] == s[16..20] && s[15..][5..] == s[20..] && s[20..][1..5] == s[21..25]
    ensures s[20..][5..] == s[25..]
  {
  }

  ghost function Values(cs: seq<LiveCondition>): seq<Condition>
    reads cs
  {
    seq(|cs|, i requires 0 <= i < |cs| reads cs => cs[i].Value())
  }

  /** What is loaded when a condition's header is read and the rest is not. */
  ghost function Loading(c: Condition, s: seq<byte>): seq<Condition> {
    match ReadProps(c, s)
    case Read(c', rest) => [c'] + ReadAll(rest)
    case Failed(rest) => ReadAll(rest)
  }

  lemma LoadingIs(s: seq<byte>)
    ensures ReadAll(s) == match ReadHeader(s) case None => [] case Some(cs) => Loading(cs.0, cs.1)
  {
  }

  /** Reads the rest of a condition, and keeps it if it can be read to its end. */
  method FinishLoading(condition: LiveCondition, propStream: PropStream, conditions: seq<LiveCondition>)
    returns (all: seq<LiveCondition>)
    requires propStream.Valid() && condition !in conditions
    modifies condition, propStream
    ensures propStream.Valid() && |propStream.Rest()| <= |old(propStream.Rest())|
    ensures all == conditions || all == conditions + [condition]
    ensures Values(all) + ReadAll(propStream.Rest())
            == old(Values(conditions)) + old(Loading(condition.Value(), propStream.Rest()))
  {
    hide ReadProps, ReadAll, LiveCondition.Value;
    all := conditions;
    label before:
    var ok := condition.Unserialize(propStream);
    SameValues@before(conditions);
    if ok {
      MoreValues(conditions, condition);
      all := conditions + [condition];
    }
  }

  /** Loads all conditions of a player; one that cannot be read to its end is dropped. */
  method LoadConditions(propStream: PropStream) returns (conditions: seq<LiveCondition>)
    requires propStream.Valid()
    modifies propStream
    ensures Values(conditions) == ReadAll(old(propStream.Rest()))
    ensures forall c :: c in conditions ==> fresh(c)
  {
    hide ReadHeader, ReadProps, ReadAll, Loading, LiveCondition.Value, PropStream.Rest;
    conditions := [];
    ghost var all := ReadAll(propStream.Rest());
    LoadingIs(propStream.Rest());
    var condition := CreateCondition(propStream);
    while condition != null
      invariant propStream.Valid() && (forall c :: c in conditions ==> fresh(c))
      invariant condition != null ==> fresh(condition) && condition !in conditions
      invariant Values(conditions) + (if condition == null then [] else Loading(condition.Value(), propStream.Rest()))
                == all
      decreases |propStream.Rest()| + if condition == null then 0 else 1
    {
      conditions := FinishLoading(condition, propStream, conditions);
      LoadingIs(propStream.Rest());
      label before:
      condition := CreateCondition(propStream);
      SameValues@before(conditions);
    }
  }

  twostate lemma SameValues(cs: seq<LiveCondition>)
    requires forall c :: c in cs ==> unchanged(c)
    ensures Values(cs) == old(Values(cs))
  {
    forall i | 0 <= i < |cs| ensures cs[i].Value() == old(cs[i].Value()) {
      assert cs[i] in cs;
    }
  }

  lemma MoreValues(cs: seq<LiveCondition>, c: LiveCondition)
    ensures Values(cs + [c]) == Values(cs) + [c.Value()]
  {
  }

  /** Whether a condition is stored at all. */
  predicate IsStored(c: Condition) {
    IsPersistent(c.ticks, c.id) || c.kind == 0x40_0000
  }

  function Stored(cs: seq<Condition>): seq<Condition> {
    if cs == [] then [] else
    Stored(cs[..|cs| - 1]) + if IsStored(cs[|cs| - 1]) then [cs[|cs| - 1]] else []
  }

  /** Conditions are stored that have time left and do not come from fighting, and the marks of gamemasters. */
  lemma {:induction false} StoredExactly(cs: seq<Condition>, c: Condition)
    ensures multiset(Stored(cs))[c]
            == if (c.ticks > 0 && c.id != 0) || c.kind == 0x40_0000 then multiset(cs)[c] else 0
  {
    if cs != [] {
      StoredExactly(cs[..|cs| - 1], c);
      assert cs == cs[..|cs| - 1] + [cs[|cs| - 1]];
    }
  }

  lemma {:induction false} WrittenLast(cs: seq<Condition>, c: Condition)
    ensures WrittenAll(cs + [c]) == WrittenAll(cs) + (Written(c) + [ATTR_END])
  {
    hide Written;
    if cs == [] {
      assert [] + [c] == [c];
      assert WrittenAll([c][1..]) == [];
    } else {
      WrittenLast(cs[1..], c);
      assert (cs + [c])[1..] == cs[1..] + [c];
    }
  }

  /** Stores a player's conditions one after the other, each closed by an end tag. */
  method SaveConditions(conditions: seq<LiveCondition>, out: PropWriteStream)
    requires out.Valid()
    modifies out, out.buffer
    ensures out.Valid() && (out.buffer == old(out.buffer) || fresh(out.buffer))
    ensures out.Contents() == old(out.Contents()) + WrittenAll(Stored(Values(conditions)))
  {
    hide Written, WrittenAll, LiveCondition.Value, IsStored;
    ghost var before, all := out.Contents(), Values(conditions);
    NoneWritten();
    for i := 0 to |conditions|
      invariant out.Valid() && (out.buffer == old(out.buffer) || fresh(out.buffer)) && Values(conditions) == all
      invariant out.Contents() == before + WrittenAll(Stored(all[..i]))
    {
      var c := conditions[i].Get();
      assert c == all[i];
      StoredLast(all, i);
      if IsStored(c) {
        WrittenLast(Stored(all[..i]), c);
        conditions[i].Serialize(out);
        out.AddValue([ATTR_END]);
        Regroup3(before, WrittenAll(Stored(all[..i])), Written(c), [ATTR_END]);
      }
    }
    assert all[..|all|] == all;
  }

  lemma StoredLast(cs: seq<Condition>, i: nat)
    requires i < |cs|
    ensures Stored(cs[..i + 1]) == if IsStored(cs[i]) then Stored(cs[..i]) + [cs[i]] else Stored(cs[..i])
  {
    assert cs[..i + 1][..i] == cs[..i];
  }

  lemma Regroup3(a: seq<byte>, b: seq<byte>, c: seq<byte>, d: seq<byte>)
    ensures a + b + c + d == a + (b + (c + d))
  {
  }

  lemma NoneWritten()
    ensures WrittenAll([]) == []
  {
  }

  /** What is saved and loaded again is what was stored, as it is rebuilt. */
  method SaveAndLoad(conditions: seq<LiveCondition>) returns (loaded: seq<LiveCondition>)
    requires forall c :: c in conditions ==> WellFormed(c.Value())
    ensures var cs := Stored(Values(conditions));
            Values(loaded) == RebuiltAll(cs)
  {
    hide WellFormed, Written, WrittenAll, ReadAll, LiveCondition.Value, IsStored;
    ghost var cs := Values(conditions);
    var out := new PropWriteStream();
    SaveConditions(conditions, out);
    StoredOnly(cs);
    ConditionsRoundTrip(Stored(cs));
    var data := out.buffer[..out.size];
    assert data == WrittenAll(Stored(cs));
    var propStream := new PropStream(data);
    loaded := LoadConditions(propStream);
  }

  lemma {:induction false} StoredOnly(cs: seq<Condition>)
    ensures forall c :: c in Stored(cs) ==> c in cs
  {
    if cs != [] {
      StoredOnly(cs[..|cs| - 1]);
    }
  }
}
