/** The loader: builds the node structure of a file, and hands out the properties of its nodes. */
module FileLoader {
  import opened Wrappers
  import opened NodeFormat
  import opened NodeRoundTrip
  import opened FileCache

  class NodeStruct {
    var start: nat
    var propsSize: int
    var kind: int
    var next: NodeStruct?
    var child: NodeStruct?

    constructor (start: nat)
      ensures this.start == start && next == null && child == null
    {
      this.start := start;
      propsSize, kind := 0, 0;
      next, child := null, null;
    }
  }

  /** The linked nodes from `n` up to `last`, all of them in `r`, are the parsed nodes `ns`. */
  ghost predicate Represents(n: NodeStruct?, ns: seq<Node>, last: NodeStruct?, r: set<NodeStruct>)
    reads r
    decreases ns
  {
    if ns == [] then n == last
    else
      && n != null && n in r
      && n.start == ns[0].start && n.propsSize == ns[0].propsSize && n.kind == ns[0].kind
      && Represents(n.child, ns[0].children, null, r)
      && Represents(n.next, ns[1..], last, r)
  }

  lemma {:induction false} RepresentsMore(n: NodeStruct?, ns: seq<Node>, last: NodeStruct?,
                                          r: set<NodeStruct>, r': set<NodeStruct>)
    requires Represents(n, ns, last, r) && r <= r'
    ensures Represents(n, ns, last, r')
    decreases ns
  {
    if ns != [] {
      RepresentsMore(n.child, ns[0].children, null, r, r');
      RepresentsMore(n.next, ns[1..], last, r, r');
    }
  }

  /** One more node at the end of a stretch of siblings. */
  lemma {:induction false} RepresentsAppend(n: NodeStruct?, ns: seq<Node>, mid: NodeStruct, node: Node,
                                            r: set<NodeStruct>)
    requires Represents(n, ns, mid, r) && mid in r
    requires mid.start == node.start && mid.propsSize == node.propsSize && mid.kind == node.kind
    requires Represents(mid.child, node.children, null, r)
    ensures Represents(n, ns + [node], mid.next, r)
    decreases ns
  {
    if ns == [] {
      assert ns + [node] == [node];
    } else {
      RepresentsAppend(n.next, ns[1..], mid, node, r);
      assert (ns + [node])[0] == ns[0] && (ns + [node])[1..] == ns[1..] + [node];
    }
  }

  /** A freshly parsed node joins the stretch that ends in front of it, with all that is below it. */
  lemma AddNode(n: NodeStruct?, ns: seq<Node>, current: NodeStruct, node: Node, r: set<NodeStruct>,
                kids: set<NodeStruct>)
    returns (r': set<NodeStruct>)
    requires Represents(n, ns, current, r)
    requires current.start == node.start && current.propsSize == node.propsSize && current.kind == node.kind
    requires Represents(current.child, node.children, null, kids)
    ensures r' == r + {current} + kids && Represents(n, ns + [node], current.next, r')
  {
    r' := r + {current} + kids;
    RepresentsMore(n, ns, current, r, r');
    RepresentsMore(current.child, node.children, null, kids, r');
    RepresentsAppend(n, ns, current, node, r');
  }

  lemma RegroupNodes(ns: seq<Node>, n: Node, rest: Option<(seq<Node>, nat)>)
    ensures rest.Some? ==> ns + ([n] + rest.value.0) == (ns + [n]) + rest.value.0
  {
  }

  lemma Nothing(n: NodeStruct?)
    ensures Represents(n, [], n, {})
  {
  }

  /**
    The linked nodes are some trees: each has its type, and a span that can be asked for its properties and
    gives them.
   */
  ghost predicate Holds(b: seq<byte>, n: NodeStruct?, ts: seq<Tree>, r: set<NodeStruct>)
    reads r
    decreases ts
  {
    if ts == [] then n == null
    else
      && n != null && n in r && n.kind == ts[0].kind
      && GivesProps(b, n, ts[0].props)
      && Holds(b, n.child, ts[0].children, r)
      && Holds(b, n.next, ts[1..], r)
  }

  /** Linked nodes are no two different trees. */
  lemma {:induction false} HeldIsOne(b: seq<byte>, n: NodeStruct?, ts: seq<Tree>, ts': seq<Tree>, r: set<NodeStruct>)
    requires Holds(b, n, ts, r) && Holds(b, n, ts', r)
    ensures ts == ts'
    decreases ts
  {
    if ts != [] && ts' != [] {
      HeldIsOne(b, n.child, ts[0].children, ts'[0].children, r);
      HeldIsOne(b, n.next, ts[1..], ts'[1..], r);
      assert ts == [ts[0]] + ts[1..] && ts' == [ts'[0]] + ts'[1..];
    }
  }

  /** The node's span lies in the file and is well escaped, and unescaping it gives these properties. */
  ghost predicate GivesProps(b: seq<byte>, n: NodeStruct, props: seq<byte>)
    reads n
  {
    && 0 <= n.propsSize && n.start + 2 + n.propsSize <= |b|
    && WellEscaped(b[n.start + 2..n.start + 2 + n.propsSize])
    && Unescape(b[n.start + 2..n.start + 2 + n.propsSize]) == props
  }

  /** Nodes that represent sound parsed nodes hold the trees these decode to. */
  lemma {:induction false} RepresentedHold(b: seq<byte>, n: NodeStruct?, ns: seq<Node>, r: set<NodeStruct>)
    requires Represents(n, ns, null, r) && SpansSound(b, ns)
    ensures Holds(b, n, Decode(b, ns), r)
    decreases ns
  {
    hide Unescape, WellEscaped;
    if ns != [] {
      RepresentedHold(b, n.child, ns[0].children, r);
      RepresentedHold(b, n.next, ns[1..], r);
    }
  }

  // ---------------------------------------------------------------- the reader, one step at a time

  lemma MarkerStep(b: seq<byte>, p: nat)
    ensures p >= |b| ==> NextMarker(b, p).None?
    ensures p < |b| && b[p] in {NODE_START, NODE_END} ==> NextMarker(b, p) == Some(p)
    ensures p < |b| && b[p] == ESCAPE_CHAR && p + 1 < |b| ==> NextMarker(b, p) == NextMarker(b, p + 2)
    ensures p < |b| && b[p] == ESCAPE_CHAR && p + 1 == |b| ==> NextMarker(b, p).None?
    ensures p < |b| && !IsSpecial(b[p]) ==> NextMarker(b, p) == NextMarker(b, p + 1)
  {
  }

  lemma HeadStep(b: seq<byte>, s: nat)
    requires s < |b|
    ensures s + 1 >= |b| || NextMarker(b, s + 2).None? ==> ParseHead(b, s).None?
    ensures s + 1 < |b| && NextMarker(b, s + 2).Some? ==>
              var m := NextMarker(b, s + 2).value;
              if b[m] == NODE_END then ParseHead(b, s) == Some((Node(s, m - s - 2, b[s + 1], []), m + 1))
              else if ParseSiblings(b, m).None? || ParseSiblings(b, m).value.1 == |b| then ParseHead(b, s).None?
              else ParseHead(b, s) == Some((Node(s, m - s - 2, b[s + 1], ParseSiblings(b, m).value.0),
                                            ParseSiblings(b, m).value.1 + 1))
  {
  }

  lemma SiblingsStep(b: seq<byte>, s: nat)
    requires s < |b|
    ensures ParseHead(b, s).None? ==> ParseSiblings(b, s).None?
    ensures ParseHead(b, s).Some? ==>
              var (n, p) := ParseHead(b, s).value;
              if p == |b| || b[p] == NODE_END then ParseSiblings(b, s) == Some(([n], p))
              else if b[p] == NODE_START && ParseSiblings(b, p).Some? then
                ParseSiblings(b, s) == Some(([n] + ParseSiblings(b, p).value.0, ParseSiblings(b, p).value.1))
              else ParseSiblings(b, s).None?
  {
  }

  /** Properties that are in the buffer, or a span that runs over it. */
  datatype Asked = Given(size: nat) | Overrun

  class FileLoader {
    const reader: FileReader
    var buffer: array<byte>
    var root: NodeStruct?

    constructor (reader: FileReader)
      ensures this.reader == reader && fresh(buffer) && buffer.Length == 1024 && root == null
    {
      this.reader := reader;
      buffer := new byte[1024](_ => 0);
      root := null;
    }

    /**
      One node, from its type byte to its NODE_END: reads the type, skips over the raw properties
      and descends into the children.  `kids` are the nodes built below it.
     */
    method ParseOne(current: NodeStruct) returns (ok: bool, ghost kids: set<NodeStruct>)
      requires reader.Valid() && reader.HasCursor() && reader.Position() == current.start + 1 <= |reader.file|
      requires current.child == null
      modifies reader`filePos, reader`blocks, reader`cacheIndex, reader`cacheOffset
      modifies current`kind, current`propsSize, current`child
      ensures reader.Valid() && reader.HasCursor()
      ensures ok <==> ParseHead(reader.file, current.start).Some?
      ensures fresh(kids)
      ensures ok ==> var (node, p) := ParseHead(reader.file, current.start).value;
                     && reader.Position() == p
                     && current.kind == node.kind && current.propsSize == node.propsSize
                     && Represents(current.child, node.children, null, kids)
      decreases |reader.file| - current.start, 1
    {
      hide ParseHead, ParseSiblings, NextMarker, Represents;
      hide FileReader.Valid, FileReader.Position, FileReader.HasCursor;
      ghost var b, s := reader.file, current.start;
      HeadStep(b, s);
      kids := {};
      var byte;
      ok, byte := reader.ReadByte();
      if !ok {
        return;
      }
      current.kind := byte;
      var setPropsSize := false;
      while true
        invariant reader.Valid() && reader.HasCursor() && s + 2 <= reader.Position() <= |b|
        invariant current.start == s && current.kind == b[s + 1] && fresh(kids)
        invariant !setPropsSize ==>
                  current.child == null && kids == {} && NextMarker(b, reader.Position()) == NextMarker(b, s + 2)
        invariant setPropsSize ==>
                    && NextMarker(b, s + 2).Some?
                    && var m := NextMarker(b, s + 2).value;
                    && b[m] == NODE_START && current.propsSize == m - s - 2
                    && ParseSiblings(b, m).Some? && ParseSiblings(b, m).value.1 == reader.Position()
                    && Represents(current.child, ParseSiblings(b, m).value.0, null, kids)
        decreases |b| - reader.Position()
      {
        MarkerStep(b, reader.Position());
        ok, byte := SkipToMarker();
        if !ok {
          return;
        }
        if byte == NODE_START {
          assert current.child == null;
          setPropsSize := true;
          ok, kids := ParseChildren(current);
          if !ok {
            return;
          }
        } else {
          if !setPropsSize {
            var told, pos := reader.SafeTell();
            current.propsSize := pos - current.start - 2;
            Nothing(null);
          }
          return;
        }
      }
    }

    /** Reads on over ordinary bytes and escape pairs, up to and including the next marker. */
    method SkipToMarker() returns (ok: bool, byte: byte)
      requires reader.Valid() && reader.HasCursor() && reader.Position() <= |reader.file|
      modifies reader`filePos, reader`blocks, reader`cacheIndex, reader`cacheOffset
      ensures reader.Valid() && reader.HasCursor()
      ensures ok <==> NextMarker(reader.file, old(reader.Position())).Some?
      ensures ok ==> var m := NextMarker(reader.file, old(reader.Position())).value;
                     reader.Position() == m + 1 && byte == reader.file[m]
    {
      hide NextMarker, FileReader.Valid, FileReader.Position, FileReader.HasCursor;
      ghost var p := reader.Position();
      while true
        invariant reader.Valid() && reader.HasCursor() && reader.Position() <= |reader.file|
        invariant NextMarker(reader.file, reader.Position()) == NextMarker(reader.file, p)
        decreases |reader.file| - reader.Position()
      {
        MarkerStep(reader.file, reader.Position());
        ok, byte := reader.ReadByte();
        if !ok || byte == NODE_START || byte == NODE_END {
          return;
        }
        if byte == ESCAPE_CHAR {
          ok, byte := reader.ReadByte();
          if !ok {
            return;
          }
        }
      }
    }

    /** The NODE_START of a first child has just been read: the raw properties end in front of it. */
    method ParseChildren(current: NodeStruct) returns (ok: bool, ghost kids: set<NodeStruct>)
      requires reader.Valid() && reader.HasCursor() && current.start + 2 < reader.Position() <= |reader.file|
      modifies reader`filePos, reader`blocks, reader`cacheIndex, reader`cacheOffset
      modifies current`propsSize, current`child
      ensures reader.Valid() && reader.HasCursor()
      ensures var m := old(reader.Position()) - 1;
              && (ok <==> ParseSiblings(reader.file, m).Some?)
              && current.propsSize == m - current.start - 2
              && (ok ==> && reader.Position() == ParseSiblings(reader.file, m).value.1
                         && Represents(current.child, ParseSiblings(reader.file, m).value.0, null, kids))
      ensures fresh(kids)
      decreases |reader.file| - current.start, 0
    {
      hide ParseHead, ParseSiblings, NextMarker, Represents;
      hide FileReader.Valid, FileReader.Position, FileReader.HasCursor;
      var told, pos := reader.SafeTell();
      var childNode := new NodeStruct(pos);
      current.propsSize := pos - current.start - 2;
      current.child := childNode;
      ok, kids := ParseNode(childNode);
    }

    /**
      A node whose NODE_START has just been read, with its children and the siblings that follow it.
      Stops at the end of the file, or in front of the NODE_END that closes the parent.
     */
    method ParseNode(node: NodeStruct) returns (ok: bool, ghost r: set<NodeStruct>)
      requires reader.Valid() && reader.HasCursor() && reader.Position() == node.start + 1 <= |reader.file|
      requires node.child == null && node.next == null
      modifies reader`filePos, reader`blocks, reader`cacheIndex, reader`cacheOffset
      modifies node`kind, node`propsSize, node`child, node`next
      ensures reader.Valid() && reader.HasCursor()
      ensures ok <==> ParseSiblings(reader.file, node.start).Some?
      ensures fresh(r - {node})
      ensures ok ==> && Represents(node, ParseSiblings(reader.file, node.start).value.0, null, r)
                     && reader.Position() == ParseSiblings(reader.file, node.start).value.1
      decreases |reader.file| - node.start, 2
    {
      hide ParseHead, ParseSiblings, NextMarker, Represents;
      hide FileReader.Valid, FileReader.Position, FileReader.HasCursor;
      ghost var b, full := reader.file, ParseSiblings(reader.file, node.start);
      ghost var nodes: seq<Node> := [];
      var current: NodeStruct := node;
      r := {};
      Nothing(node);
      assert full.Some? ==> [] + full.value.0 == full.value.0;
      while true
        invariant reader.Valid() && reader.HasCursor() && reader.Position() == current.start + 1 <= |b|
        invariant node.start == old(node.start) <= current.start && current.child == null && current.next == null
        invariant fresh(r - {node}) && current !in r && (current == node || fresh(current))
        invariant Represents(node, nodes, current, r)
        invariant full.Some? <==> ParseSiblings(b, current.start).Some?
        invariant full.Some? ==>
                    var rest := ParseSiblings(b, current.start).value;
                    full.value == (nodes + rest.0, rest.1)
        decreases |b| - current.start
      {
        ghost var kids;
        SiblingsStep(b, current.start);
        ok, kids := ParseOne(current);
        if !ok {
          return;
        }
        ghost var n := ParseHead(b, current.start).value.0;
        var nextNode: NodeStruct?;
        ok, nextNode := NextSibling(current);
        if !ok {
          return;
        }
        r := AddNode(node, nodes, current, n, r, kids);
        if nextNode == null {
          return;
        }
        RegroupNodes(nodes, n, ParseSiblings(b, nextNode.start));
        nodes := nodes + [n];
        current := nextNode;
      }
    }

    /**
      Behind a NODE_END: another NODE_START begins the next sibling, another NODE_END is put back for
      the parent, and the end of the file ends everything.
     */
    method NextSibling(current: NodeStruct) returns (ok: bool, nextNode: NodeStruct?)
      requires reader.Valid() && reader.HasCursor() && reader.Position() <= |reader.file|
      requires current.next == null
      modifies reader`filePos, reader`blocks, reader`cacheIndex, reader`cacheOffset, current`next
      ensures reader.Valid() && reader.HasCursor() && nextNode == current.next
      ensures var p, b := old(reader.Position()), reader.file;
              if p == |b| || b[p] == NODE_END then ok && nextNode == null && reader.Position() == p
              else if b[p] == NODE_START then
                && ok && nextNode != null && fresh(nextNode) && reader.Position() == p + 1
                && nextNode.start == p && nextNode.child == null && nextNode.next == null
              else !ok
    {
      hide FileReader.Valid, FileReader.Position, FileReader.HasCursor;
      nextNode := null;
      var more, byte := reader.ReadByte();
      if !more {
        return true, nextNode;
      }
      var told, pos := reader.SafeTell();
      if byte == NODE_START {
        nextNode := new NodeStruct(pos);
        current.next := nextNode;
        ok := true;
      } else if byte == NODE_END {
        ok := reader.SafeSeek(pos);
      } else {
        ok := false;
      }
    }

    /**
      Opens a file for reading: checks its version and builds its nodes.  Works the same with and
      without the cache.
     */
    method OpenFile() returns (ok: bool, ghost r: set<NodeStruct>)
      requires reader.Valid() && reader.filePos == 0
      modifies reader`filePos, reader`blocks, reader`cacheIndex, reader`cacheOffset, this`root
      ensures reader.Valid()
      ensures var b := reader.file;
              ok <==> |b| > |HEADER| && b[..|HEADER|] == HEADER && b[|HEADER|] == NODE_START
                      && ParseSiblings(b, |HEADER|).Some?
      ensures ok ==> Represents(root, ParseSiblings(reader.file, |HEADER|).value.0, null, r)
    {
      hide ParseSiblings, Represents, FileReader.Valid, FileReader.Position, FileReader.HasCursor;
      r := {};
      var version := reader.Fread(|HEADER|);
      if version != HEADER {
        return false, r;
      }
      var sought := reader.SafeSeek(|HEADER|);
      root := new NodeStruct(|HEADER|);
      sought := reader.SafeSeek(|HEADER|);
      var byte;
      ok, byte := reader.ReadByte();
      if !ok || byte != NODE_START {
        return false, r;
      }
      ok, r := ParseNode(root);
    }

    /** Opening the file written for a tree builds that tree, whenever it is one that is rebuilt. */
    method OpenWritten(tree: Tree) returns (ok: bool, ghost r: set<NodeStruct>)
      requires reader.Valid() && reader.filePos == 0 && reader.file == File(tree) && Writable([tree])
      modifies reader`filePos, reader`blocks, reader`cacheIndex, reader`cacheOffset, this`root
      ensures reader.Valid() && ok && Holds(reader.file, root, [tree], r)
    {
      hide ParseSiblings, Represents, Holds, SpansSound, Decode, Writable, Write, FileReader.Valid;
      ghost var b := reader.file;
      RoundTrip(tree);
      FileStarts(tree);
      ok, r := OpenFile();
      RepresentedHold(b, root, ParseSiblings(b, |HEADER|).value.0, r);
    }

    /**
      The properties of a node, unescaped into the shared buffer.  The span has to be one the parser accepts.  The
      buffer grows once, by 1024; a span that is too long even so runs over it.
     */
    method GetProps(node: NodeStruct) returns (r: Asked)
      requires reader.Valid()
      requires 0 <= node.propsSize && node.start + 2 + node.propsSize <= |reader.file|
      requires WellEscaped(reader.file[node.start + 2..node.start + 2 + node.propsSize])
      modifies reader`filePos, reader`blocks, reader`cacheIndex, reader`cacheOffset, this`buffer, buffer
      ensures reader.Valid()
      ensures r.Overrun? <==> node.propsSize > old(buffer.Length) + 1024
      ensures r.Given? ==>
                && r.size <= buffer.Length
                && buffer[..r.size] == Unescape(reader.file[node.start + 2..node.start + 2 + node.propsSize])
      ensures buffer.Length == old(buffer.Length) + if node.propsSize >= old(buffer.Length) then 1024 else 0
    {
      hide Unescape, WellEscaped, FileReader.Valid, FileReader.Position, FileReader.HasCursor;
      if node.propsSize >= buffer.Length {
        buffer := new byte[buffer.Length + 1024](_ => 0);
      }
      if node.propsSize > buffer.Length {
        return Overrun;
      }
      var reading := reader.ReadBytes(buffer, node.propsSize, node.start + 2);
      assert reading == Done;
      assert buffer[..node.propsSize] == reader.file[node.start + 2..node.start + 2 + node.propsSize];
      var size := UnescapeInPlace(buffer, node.propsSize);
      r := Given(size);
    }
  }

  lemma FileStarts(tree: Tree)
    ensures var b := File(tree); |b| > |HEADER| && b[..|HEADER|] == HEADER && b[|HEADER|] == NODE_START
  {
  }

  /**
    Removes the escape characters from the first `n` bytes of a buffer, reading at `i` and writing at
    `j <= i`.  Bytes in front of the first escape character are not touched.
   */
  method UnescapeInPlace(buffer: array<byte>, n: nat) returns (size: nat)
    requires n <= buffer.Length && WellEscaped(buffer[..n])
    modifies buffer
    ensures size <= n && buffer[..size] == Unescape(old(buffer[..n]))
  {
    hide Unescape, WellEscaped;
    ghost var was := buffer[..n];
    var i, j, escaped := 0, 0, false;
    assert was[0..] == was;
    while i < n
      invariant 0 <= j <= i <= n && (!escaped ==> i == j)
      invariant buffer[i..n] == was[i..]
      invariant WellEscaped(was[i..])
      invariant buffer[..j] + Unescape(was[i..]) == Unescape(was)
    {
      UnescapeStep(was, i);
      assert buffer[i] == was[i];
      ghost var written := buffer[..j];
      if buffer[i] == ESCAPE_CHAR {
        assert buffer[i + 1] == was[i + 1];
        i := i + 1;
        buffer[j] := buffer[i];
        escaped := true;
      } else if escaped {
        buffer[j] := buffer[i];
      }
      PrefixGrows(buffer[..], written, was[i]);
      i, j := i + 1, j + 1;
    }
    UnescapeNothing(was, n);
    size := j;
  }

  lemma PrefixGrows(b: seq<byte>, written: seq<byte>, c: byte)
    requires |written| < |b| && b[..|written|] == written && b[|written|] == c
    ensures b[..|written| + 1] == written + [c]
  {
  }

  lemma UnescapeStep(s: seq<byte>, i: nat)
    requires i < |s| && WellEscaped(s[i..])
    ensures var w := if s[i] == ESCAPE_CHAR then 2 else 1;
            && i + w <= |s| && WellEscaped(s[i + w..])
            && Unescape(s[i..]) == [s[i + w - 1]] + Unescape(s[i + w..])
  {
    var w := if s[i] == ESCAPE_CHAR then 2 else 1;
    assert s[i..][w..] == s[i + w..];
  }

  lemma UnescapeNothing(s: seq<byte>, n: nat)
    requires n == |s|
    ensures Unescape(s[n..]) == []
  {
  }
}
