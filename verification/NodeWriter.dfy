/** The writing side of the loader. */
module NodeWriter {
  import opened NodeFormat

  /** What a client asks of the writer. */
  datatype Call = StartNode(kind: byte) | SetProps(data: seq<byte>) | EndNode

  function Emitted(call: Call): seq<byte> {
    match call
    case StartNode(kind) => [NODE_START] + Escape([kind])
    case SetProps(data) => Escape(data)
    case EndNode => [NODE_END]
  }

  function EmittedAll(calls: seq<Call>): seq<byte> {
    if calls == [] then [] else Emitted(calls[0]) + EmittedAll(calls[1..])
  }

  class Writer {
    var out: seq<byte>

    /** A new file starts with its version. */
    constructor ()
      ensures out == HEADER
    {
      out := HEADER;
    }

    method WriteData(data: seq<byte>, unescape: bool)
      modifies this
      ensures out == old(out) + if unescape then Escape(data) else data
    {
      assert data[0..] == data;
      for i := 0 to |data|
        invariant out + (if unescape then Escape(data[i..]) else data[i..])
                  == old(out) + if unescape then Escape(data) else data
      {
        assert data[i..][1..] == data[i + 1..];
        var c := data[i];
        if unescape && (c == NODE_START || c == NODE_END || c == ESCAPE_CHAR) {
          out := out + [ESCAPE_CHAR];
        }
        out := out + [c];
      }
    }

    method Start(kind: byte)
      modifies this
      ensures out == old(out) + Emitted(StartNode(kind))
    {
      WriteData([NODE_START], false);
      WriteData([kind], true);
    }

    method Props(data: seq<byte>)
      requires |data| < 0x1_0000
      modifies this
      ensures out == old(out) + Emitted(SetProps(data))
    {
      WriteData(data, true);
    }

    method End()
      modifies this
      ensures out == old(out) + Emitted(EndNode)
    {
      WriteData([NODE_END], false);
    }
  }

  /** Properties cut into pieces of any size, written one after the other. */
  function PropCalls(pieces: seq<seq<byte>>): seq<Call> {
    seq(|pieces|, i requires 0 <= i < |pieces| => SetProps(pieces[i]))
  }

  function Joined(pieces: seq<seq<byte>>): seq<byte> {
    if pieces == [] then [] else pieces[0] + Joined(pieces[1..])
  }

  /** A tree together with the way its properties are cut into calls. */
  datatype Plan = Plan(kind: byte, pieces: seq<seq<byte>>, children: seq<Plan>)

  function Planned(plan: Plan): Tree {
    Tree(plan.kind, Joined(plan.pieces), PlannedAll(plan.children))
  }

  function PlannedAll(plans: seq<Plan>): seq<Tree> {
    if plans == [] then [] else [Planned(plans[0])] + PlannedAll(plans[1..])
  }

  /** The calls for a tree: its type, its properties, its children, its end. */
  function Calls(plan: Plan): seq<Call> {
    [StartNode(plan.kind)] + PropCalls(plan.pieces) + CallsAll(plan.children) + [EndNode]
  }

  function CallsAll(plans: seq<Plan>): seq<Call> {
    if plans == [] then [] else Calls(plans[0]) + CallsAll(plans[1..])
  }

  lemma {:induction false} EmittedConcat(a: seq<Call>, b: seq<Call>)
    ensures EmittedAll(a + b) == EmittedAll(a) + EmittedAll(b)
  {
    hide Emitted;
    if a == [] {
      assert a + b == b;
    } else {
      EmittedConcat(a[1..], b);
      assert (a + b)[0] == a[0] && (a + b)[1..] == a[1..] + b;
      ConcatAssociative(Emitted(a[0]), EmittedAll(a[1..]), EmittedAll(b));
    }
  }

  lemma ConcatAssociative(x: seq<byte>, y: seq<byte>, z: seq<byte>)
    ensures x + (y + z) == (x + y) + z
  {
  }

  lemma {:induction false} PiecesEmitted(pieces: seq<seq<byte>>)
    ensures EmittedAll(PropCalls(pieces)) == Escape(Joined(pieces))
  {
    if pieces != [] {
      PiecesEmitted(pieces[1..]);
      assert PropCalls(pieces)[1..] == PropCalls(pieces[1..]);
      EscapeConcat(pieces[0], Joined(pieces[1..]));
    }
  }

  lemma EmittedOne(call: Call)
    ensures EmittedAll([call]) == Emitted(call)
  {
    assert [call][1..] == [];
  }

  /** Any cutting of the properties leads to the same bytes: those of the tree. */
  lemma {:induction false} CallsWriteTree(plan: Plan)
    ensures EmittedAll(Calls(plan)) == Write(Planned(plan))
    decreases plan, 1
  {
    hide Emitted, EmittedAll, Escape, PropCalls, Joined, CallsAll;
    var head, props, inner := [StartNode(plan.kind)], PropCalls(plan.pieces), CallsAll(plan.children);
    EmittedConcat(head + props + inner, [EndNode]);
    EmittedConcat(head + props, inner);
    EmittedConcat(head, props);
    EmittedOne(StartNode(plan.kind));
    EmittedOne(EndNode);
    PiecesEmitted(plan.pieces);
    CallsWriteForest(plan.children);
    MarkersEmitted(plan.kind);
  }

  lemma MarkersEmitted(kind: byte)
    ensures Emitted(EndNode) == [NODE_END]
    ensures Emitted(StartNode(kind)) == [NODE_START] + EscapeByte(kind)
  {
    assert Escape([kind]) == EscapeByte(kind) + Escape([kind][1..]);
    assert EscapeByte(kind) + [] == EscapeByte(kind);
  }

  lemma {:induction false} CallsWriteForest(plans: seq<Plan>)
    ensures EmittedAll(CallsAll(plans)) == WriteAll(PlannedAll(plans))
    decreases plans, 0
  {
    if plans != [] {
      CallsWriteTree(plans[0]);
      CallsWriteForest(plans[1..]);
      EmittedConcat(Calls(plans[0]), CallsAll(plans[1..]));
    }
  }
}
