/**
  The node file format: a forest of typed nodes, each carrying a string of property bytes.
  A node is written as NODE_START, its type, its properties, its children and NODE_END; the type
  and the properties are written through an escaping filter, the two markers are not.

  This module holds the format as functions on byte sequences: what the writer emits, and what
  the reader accepts.  `FileLoader` holds the code that reads and writes it.
 */
module NodeFormat {
  import opened Wrappers

  type byte = x: int | 0 <= x < 256

  const ESCAPE_CHAR: byte := 0xFD
  const NODE_START: byte := 0xFE
  const NODE_END: byte := 0xFF

  /** What a client writes: a type, property bytes and, after them, the children. */
  datatype Tree = Tree(kind: byte, props: seq<byte>, children: seq<Tree>)

  /** What the reader builds: where a node starts in the file and how long its raw properties are. */
  datatype Node = Node(start: nat, propsSize: nat, kind: byte, children: seq<Node>)

  // ---------------------------------------------------------------- escaping

  predicate IsSpecial(c: byte) {
    c == NODE_START || c == NODE_END || c == ESCAPE_CHAR
  }

  function EscapeByte(c: byte): seq<byte> {
    if IsSpecial(c) then [ESCAPE_CHAR, c] else [c]
  }

  function Escape(s: seq<byte>): seq<byte> {
    if s == [] then [] else EscapeByte(s[0]) + Escape(s[1..])
  }

  function Unescape(s: seq<byte>): seq<byte> {
    if s == [] then []
    else if s[0] != ESCAPE_CHAR then [s[0]] + Unescape(s[1..])
    else if |s| == 1 then []
    else [s[1]] + Unescape(s[2..])
  }

  /** No marker outside an escape pair, and no escape character left without its partner. */
  predicate WellEscaped(s: seq<byte>) {
    if s == [] then true
    else if s[0] == ESCAPE_CHAR then |s| >= 2 && WellEscaped(s[2..])
    else !IsSpecial(s[0]) && WellEscaped(s[1..])
  }

  lemma {:induction false} UnescapeInvertsEscape(s: seq<byte>)
    ensures WellEscaped(Escape(s))
    ensures Unescape(Escape(s)) == s
  {
    if s != [] {
      UnescapeInvertsEscape(s[1..]);
      if IsSpecial(s[0]) {
        assert Escape(s)[2..] == Escape(s[1..]);
      } else {
        assert Escape(s)[1..] == Escape(s[1..]);
      }
    }
  }

  /** Properties may be written in several calls: the file only sees their concatenation. */
  lemma {:induction false} EscapeConcat(a: seq<byte>, b: seq<byte>)
    ensures Escape(a + b) == Escape(a) + Escape(b)
  {
    if a == [] {
      assert a + b == b;
    } else {
      assert (a + b)[0] == a[0] && (a + b)[1..] == a[1..] + b;
      EscapeConcat(a[1..], b);
    }
  }

  // ---------------------------------------------------------------- writing

  function Write(t: Tree): seq<byte> {
    [NODE_START] + EscapeByte(t.kind) + Escape(t.props) + WriteAll(t.children) + [NODE_END]
  }

  function WriteAll(ts: seq<Tree>): seq<byte> {
    if ts == [] then [] else Write(ts[0]) + WriteAll(ts[1..])
  }

  /** The four version bytes in front of the root node. */
  const HEADER: seq<byte> := [0, 0, 0, 0]

  function File(root: Tree): seq<byte> {
    HEADER + Write(root)
  }

  // ---------------------------------------------------------------- reading

  /** The first marker at or after `p` that is not the second half of an escape pair. */
  function NextMarker(b: seq<byte>, p: nat): (r: Option<nat>)
    ensures r.Some? ==> p <= r.value < |b| && (b[r.value] == NODE_START || b[r.value] == NODE_END)
    decreases |b| - p
  {
    if p >= |b| then None
    else if b[p] == ESCAPE_CHAR then (if p + 1 < |b| then NextMarker(b, p + 2) else None)
    else if b[p] == NODE_START || b[p] == NODE_END then Some(p)
    else NextMarker(b, p + 1)
  }

  /**
    Reads the siblings whose first NODE_START is at `s`.  On success the second component is where
    the cursor is left: at the end of the file, or in front of the NODE_END that closes the parent.
   */
  function ParseSiblings(b: seq<byte>, s: nat): (r: Option<(seq<Node>, nat)>)
    requires s < |b|
    ensures r.Some? ==> |r.value.0| > 0 && s + 2 < r.value.1 <= |b|
    ensures r.Some? && r.value.1 < |b| ==> b[r.value.1] == NODE_END
    decreases |b| - s, 2
  {
    var (node, p) :- ParseHead(b, s);
    ParseAfter(b, s, node, p)
  }

  /** One node: its type, its raw properties and its children, up to and including its NODE_END. */
  function ParseHead(b: seq<byte>, s: nat): (r: Option<(Node, nat)>)
    requires s < |b|
    ensures r.Some? ==> r.value.0.start == s && s + 2 < r.value.1 <= |b|
    decreases |b| - s, 1
  {
    if s + 1 >= |b| then None else
    var m :- NextMarker(b, s + 2);
    if b[m] == NODE_END then Some((Node(s, m - s - 2, b[s + 1], []), m + 1))
    else
      var (children, q) :- ParseSiblings(b, m);
      if q == |b| then None else Some((Node(s, m - s - 2, b[s + 1], children), q + 1))
  }

  /** What follows a node that has just been closed, the cursor being at `p`. */
  function ParseAfter(b: seq<byte>, s: nat, node: Node, p: nat): (r: Option<(seq<Node>, nat)>)
    requires s + 2 < p <= |b|
    ensures r.Some? ==> |r.value.0| > 0 && p <= r.value.1 <= |b| && r.value.0[0] == node
    ensures r.Some? && r.value.1 < |b| ==> b[r.value.1] == NODE_END
    decreases |b| - s, 0
  {
    if p == |b| then Some(([node], p))
    else if b[p] == NODE_END then Some(([node], p))
    else if b[p] == NODE_START then
      var (rest, q) :- ParseSiblings(b, p);
      Some(([node] + rest, q))
    else None
  }

  /** A root of type 2 with the properties 5 and 0xFE, and a child of type 3 without any. */
  lemma FileExample()
    ensures File(Tree(2, [5, 0xFE], [Tree(3, [], [])]))
            == [0, 0, 0, 0, 0xFE, 2, 5, 0xFD, 0xFE, 0xFE, 3, 0xFF, 0xFF]
  {
    var child := Tree(3, [], []);
    EscapeExample();
    ChildExample(child);
    hide Escape, WriteAll;
  }

  lemma EscapeExample()
    ensures Escape([5, 0xFE]) == [5, 0xFD, 0xFE] && Escape([]) == []
  {
    assert [5 as byte, 0xFE][1..] == [0xFE] && [0xFE as byte][1..] == [];
  }

  lemma ChildExample(child: Tree)
    requires child == Tree(3, [], [])
    ensures WriteAll([child]) == [0xFE, 3, 0xFF] && WriteAll([]) == []
  {
    assert [child][1..] == [];
    assert Write(child) == [0xFE, 3, 0xFF];
  }
}
