/**
  Writer against reader: which trees survive being written and read back, and what the reader
  guarantees about the property spans of any file it accepts.
 */
module NodeRoundTrip {
  import opened Wrappers
  import opened NodeFormat

  /** The raw property bytes of a node, as they lie in the file. */
  function Span(b: seq<byte>, n: Node): seq<byte>
    requires n.start + 2 + n.propsSize <= |b|
  {
    b[n.start + 2..n.start + 2 + n.propsSize]
  }

  /** Every span lies in the file and is well escaped, so unescaping it never looks past its end. */
  predicate SpansSound(b: seq<byte>, ns: seq<Node>) {
    ns == [] ||
    ( && ns[0].start + 2 + ns[0].propsSize <= |b|
      && WellEscaped(Span(b, ns[0]))
      && SpansSound(b, ns[0].children)
      && SpansSound(b, ns[1..]))
  }

  /** The forest a reader gets from the parsed nodes by asking each for its properties. */
  function Decode(b: seq<byte>, ns: seq<Node>): (ts: seq<Tree>)
    requires SpansSound(b, ns)
    ensures |ts| == |ns|
  {
    if ns == [] then []
    else [Tree(ns[0].kind, Unescape(Span(b, ns[0])), Decode(b, ns[0].children))] + Decode(b, ns[1..])
  }

  lemma DecodeParts(b: seq<byte>, ns: seq<Node>)
    requires ns != []
    ensures SpansSound(b, ns) <==>
              && ns[0].start + 2 + ns[0].propsSize <= |b| && WellEscaped(Span(b, ns[0]))
              && SpansSound(b, ns[0].children) && SpansSound(b, ns[1..])
    ensures SpansSound(b, ns) ==>
              Decode(b, ns) == [Tree(ns[0].kind, Unescape(Span(b, ns[0])), Decode(b, ns[0].children))]
                  + Decode(b, ns[1..])
  {
  }

  // ---------------------------------------------------------------- soundness of accepted spans

  lemma {:induction false} MarkerSpanWellEscaped(b: seq<byte>, p: nat, m: nat)
    requires NextMarker(b, p) == Some(m)
    ensures p <= m < |b| && WellEscaped(b[p..m]) && (b[m] == NODE_START || b[m] == NODE_END)
    decreases |b| - p
  {
    if b[p] == ESCAPE_CHAR {
      MarkerSpanWellEscaped(b, p + 2, m);
      assert b[p..m][2..] == b[p + 2..m];
    } else if p < m {
      MarkerSpanWellEscaped(b, p + 1, m);
      assert b[p..m][1..] == b[p + 1..m];
    }
  }

  /** An accepted node tells what its children were read from, and its siblings. */
  lemma ParseInverse(b: seq<byte>, s: nat, m: nat)
    requires s < |b| && ParseSiblings(b, s).Some? && NextMarker(b, s + 2) == Some(m)
    ensures var ns := ParseSiblings(b, s).value.0;
            && ns != [] && ns[0].start == s && ns[0].propsSize == m - s - 2 && ns[0].kind == b[s + 1]
            && (b[m] == NODE_END ==> ns[0].children == [])
            && (b[m] == NODE_START ==> ParseSiblings(b, m).Some? && ns[0].children == ParseSiblings(b, m).value.0)
    ensures var ns, p := ParseSiblings(b, s).value.0,
                         if b[m] == NODE_END then m + 1 else ParseSiblings(b, m).value.1 + 1;
            && s < p <= |b|
            && if p < |b| && b[p] == NODE_START
               then ParseSiblings(b, p).Some? && ns[1..] == ParseSiblings(b, p).value.0
               else ns[1..] == []
  {
  }

  /** Whatever the file holds: if the reader accepts it, every span it recorded is sound. */
  lemma {:induction false} AcceptedSpansSound(b: seq<byte>, s: nat)
    requires s < |b| && ParseSiblings(b, s).Some?
    ensures SpansSound(b, ParseSiblings(b, s).value.0)
    decreases |b| - s
  {
    hide *;
    AcceptedHasMarker(b, s);
    var m := NextMarker(b, s + 2).value;
    MarkerSpanWellEscaped(b, s + 2, m);
    ParseInverse(b, s, m);
    var ns, p := ParseSiblings(b, s).value.0, m + 1;
    SpanUpTo(b, ns[0], m);
    if b[m] == NODE_START {
      AcceptedSpansSound(b, m);
      p := ParseSiblings(b, m).value.1 + 1;
    }
    if p < |b| && b[p] == NODE_START {
      AcceptedSpansSound(b, p);
    }
    NothingUnsound(b);
    DecodeParts(b, ns);
  }

  lemma AcceptedHasMarker(b: seq<byte>, s: nat)
    requires s < |b| && ParseSiblings(b, s).Some?
    ensures NextMarker(b, s + 2).Some?
  {
  }

  lemma SpanUpTo(b: seq<byte>, n: Node, m: nat)
    requires n.start + 2 <= m <= |b| && n.propsSize == m - n.start - 2
    ensures Span(b, n) == b[n.start + 2..m]
  {
  }

  lemma NothingUnsound(b: seq<byte>)
    ensures SpansSound(b, []) && Decode(b, []) == []
  {
  }

  // ---------------------------------------------------------------- which trees survive

  /**
    The first property byte that is not ESCAPE_CHAR exists and is an ordinary byte.  Such properties
    absorb the stray escape character that a type of ESCAPE_CHAR leaves in front of them.
   */
  predicate Absorbs(props: seq<byte>) {
    props != [] && (!IsSpecial(props[0]) || (props[0] == ESCAPE_CHAR && Absorbs(props[1..])))
  }

  /**
    The type is written through the escaping filter but read raw, so it has to be an ordinary byte
    -- or ESCAPE_CHAR in front of properties that absorb the extra byte.
   */
  predicate HeadWritable(t: Tree) {
    !IsSpecial(t.kind) || (t.kind == ESCAPE_CHAR && Absorbs(t.props))
  }

  predicate Writable(ts: seq<Tree>) {
    ts == [] ||
    (HeadWritable(ts[0]) && Writable(ts[0].children) && Writable(ts[1..]))
  }

  /** What lies between the raw type byte and the first marker of a written node. */
  function Body(t: Tree): seq<byte> {
    EscapeByte(t.kind)[1..] + Escape(t.props)
  }

  lemma WriteShape(t: Tree)
    ensures Write(t) == [NODE_START, EscapeByte(t.kind)[0]] + Body(t) + WriteAll(t.children) + [NODE_END]
    ensures if t.children == [] then WriteAll(t.children) == []
            else WriteAll(t.children) != [] && WriteAll(t.children)[0] == NODE_START
  {
    var k := EscapeByte(t.kind);
    assert k == [k[0]] + k[1..];
  }

  /** The nodes a reader should find for a forest written at `s`. */
  function Layout(ts: seq<Tree>, s: nat): seq<Node>
    decreases ts
  {
    if ts == [] then []
    else
      var size := |Body(ts[0])|;
      [Node(s, size, EscapeByte(ts[0].kind)[0], Layout(ts[0].children, s + 2 + size))]
      + Layout(ts[1..], s + |Write(ts[0])|)
  }

  lemma LayoutParts(ts: seq<Tree>, s: nat)
    ensures Layout([], s) == []
    ensures ts != [] ==>
              var m := s + 2 + |Body(ts[0])|;
              Layout(ts, s) == [Node(s, |Body(ts[0])|, EscapeByte(ts[0].kind)[0], Layout(ts[0].children, m))]
                               + Layout(ts[1..], s + |Write(ts[0])|)
  {
    hide Write, Body;
  }

  /** `part` lies in the file `b` at position `p`. */
  predicate At(b: seq<byte>, p: nat, part: seq<byte>) {
    p + |part| <= |b| && forall k {:trigger part[k]} :: 0 <= k < |part| ==> b[p + k] == part[k]
  }

  lemma AtSplit(b: seq<byte>, p: nat, x: seq<byte>, y: seq<byte>)
    requires At(b, p, x + y)
    ensures At(b, p, x) && At(b, p + |x|, y)
  {
    forall k | 0 <= k < |x| ensures b[p + k] == x[k] {
      assert (x + y)[k] == x[k];
    }
    forall k | 0 <= k < |y| ensures b[p + |x| + k] == y[k] {
      assert (x + y)[|x| + k] == y[k];
    }
  }

  /** Escaped properties are scanned in one go, up to the marker that follows them. */
  lemma {:induction false} ScanEscaped(b: seq<byte>, p: nat, props: seq<byte>)
    requires At(b, p, Escape(props))
    requires p + |Escape(props)| < |b| && b[p + |Escape(props)|] in {NODE_START, NODE_END}
    ensures NextMarker(b, p) == Some(p + |Escape(props)|)
    decreases |props|
  {
    if props != [] {
      AtSplit(b, p, EscapeByte(props[0]), Escape(props[1..]));
      ScanEscaped(b, p + |EscapeByte(props[0])|, props[1..]);
    }
  }

  /** A stray escape character swallows the one that precedes a special first byte. */
  lemma StrayEscape(b: seq<byte>, p: nat, props: seq<byte>)
    requires props != [] && IsSpecial(props[0]) && At(b, p, [ESCAPE_CHAR] + Escape(props))
    ensures p + 2 < |b| && b[p] == b[p + 1] == ESCAPE_CHAR && b[p + 2] == props[0]
    ensures At(b, p + 2, [props[0]] + Escape(props[1..]))
    ensures [ESCAPE_CHAR] + Escape(props) == [ESCAPE_CHAR, ESCAPE_CHAR] + ([props[0]] + Escape(props[1..]))
  {
    var rest := Escape(props[1..]);
    assert Escape(props) == [ESCAPE_CHAR, props[0]] + rest;
    hide At, Escape, EscapeByte;
    var pair, tail := [ESCAPE_CHAR, ESCAPE_CHAR], [props[0]] + rest;
    Regroup(ESCAPE_CHAR, props[0], rest);
    AtSplit(b, p, pair, tail);
    AtIndex(b, p, pair, 0);
    AtIndex(b, p, pair, 1);
    AtIndex(b, p + 2, tail, 0);
  }

  lemma Regroup(e: byte, c: byte, rest: seq<byte>)
    ensures [e] + ([e, c] + rest) == [e, e] + ([c] + rest)
  {
  }

  lemma AtIndex(b: seq<byte>, p: nat, part: seq<byte>, k: nat)
    requires At(b, p, part) && k < |part|
    ensures p + k < |b| && b[p + k] == part[k]
  {
  }

  /** A stray escape character is absorbed: same marker, same properties. */
  lemma {:induction false} ScanAbsorbed(b: seq<byte>, p: nat, props: seq<byte>)
    requires Absorbs(props)
    requires At(b, p, [ESCAPE_CHAR] + Escape(props))
    requires p + 1 + |Escape(props)| < |b| && b[p + 1 + |Escape(props)|] in {NODE_START, NODE_END}
    ensures NextMarker(b, p) == Some(p + 1 + |Escape(props)|)
    ensures Unescape([ESCAPE_CHAR] + Escape(props)) == props
    decreases |props|
  {
    hide At;
    var span := [ESCAPE_CHAR] + Escape(props);
    if props[0] == ESCAPE_CHAR {
      StrayEscape(b, p, props);
      ScanAbsorbed(b, p + 2, props[1..]);
      assert span[2..] == [ESCAPE_CHAR] + Escape(props[1..]);
    } else {
      var pair := [ESCAPE_CHAR, props[0]];
      assert span == pair + Escape(props[1..]);
      AtSplit(b, p, pair, Escape(props[1..]));
      AtIndex(b, p, pair, 0);
      ScanEscaped(b, p + 2, props[1..]);
      UnescapeInvertsEscape(props[1..]);
      assert span[2..] == Escape(props[1..]);
    }
  }

  /** A stray escape character in front of any other properties changes what is read back. */
  lemma {:induction false} ScanNotAbsorbed(b: seq<byte>, p: nat, props: seq<byte>, m: nat)
    requires !Absorbs(props)
    requires At(b, p, [ESCAPE_CHAR] + Escape(props))
    requires p + 1 + |Escape(props)| < |b| && b[p + 1 + |Escape(props)|] in {NODE_START, NODE_END}
    requires NextMarker(b, p) == Some(m)
    ensures Unescape(b[p..m]) != props
    decreases |props|
  {
    hide At;
    AtIndex(b, p, [ESCAPE_CHAR] + Escape(props), 0);
    assert b[p..m][0] == ESCAPE_CHAR;
    if props != [] {
      StrayEscape(b, p, props);
      assert b[p..m][2..] == b[p + 2..m];
      if props[0] == ESCAPE_CHAR {
        ScanNotAbsorbed(b, p + 2, props[1..], m);
      } else {
        assert m == p + 2;
        assert Unescape(b[p..m]) == [ESCAPE_CHAR];
      }
    }
  }

  lemma AtSplit4(b: seq<byte>, p: nat, w: seq<byte>, x: seq<byte>, y: seq<byte>, z: seq<byte>)
    requires At(b, p, w + x + y + z)
    ensures p + |w| + |x| + |y| + |z| <= |b|
    ensures At(b, p, w) && At(b, p + |w|, x) && At(b, p + |w| + |x|, y) && At(b, p + |w| + |x| + |y|, z)
  {
    AtSplit(b, p, w + x + y, z);
    AtSplit(b, p, w + x, y);
    AtSplit(b, p, w, x);
  }

  /** The parts of a written node, each at its own position. */
  lemma WrittenParts(b: seq<byte>, s: nat, t: Tree)
    requires At(b, s, Write(t))
    ensures var m := s + 2 + |Body(t)|;
            && s + |Write(t)| == m + |WriteAll(t.children)| + 1 <= |b|
            && b[s] == NODE_START && b[s + 1] == EscapeByte(t.kind)[0]
            && At(b, s + 2, Body(t))
            && At(b, m, WriteAll(t.children))
            && b[m + |WriteAll(t.children)|] == NODE_END
            && b[m] == (if t.children == [] then NODE_END else NODE_START)
  {
    hide At, Write, WriteAll, Body;
    WriteShape(t);
    var head, body, inner, tail := [NODE_START, EscapeByte(t.kind)[0]], Body(t), WriteAll(t.children), [NODE_END];
    AtSplit4(b, s, head, body, inner, tail);
    AtIndex(b, s, head, 0);
    AtIndex(b, s, head, 1);
    AtIndex(b, s + 2 + |body| + |inner|, tail, 0);
    if t.children != [] {
      AtIndex(b, s + 2 + |body|, inner, 0);
    }
  }

  lemma BodyReadBack(b: seq<byte>, p: nat, t: Tree)
    requires HeadWritable(t) && At(b, p, Body(t))
    requires p + |Body(t)| < |b| && b[p + |Body(t)|] in {NODE_START, NODE_END}
    ensures NextMarker(b, p) == Some(p + |Body(t)|)
    ensures Unescape(Body(t)) == t.props && EscapeByte(t.kind)[0] == t.kind
  {
    if IsSpecial(t.kind) {
      assert Body(t) == [ESCAPE_CHAR] + Escape(t.props);
      ScanAbsorbed(b, p, t.props);
    } else {
      assert Body(t) == Escape(t.props);
      ScanEscaped(b, p, t.props);
      UnescapeInvertsEscape(t.props);
    }
  }

  lemma BodyLost(b: seq<byte>, p: nat, t: Tree, m: nat)
    requires !HeadWritable(t) && At(b, p, Body(t))
    requires p + |Body(t)| < |b| && b[p + |Body(t)|] in {NODE_START, NODE_END}
    requires NextMarker(b, p) == Some(m)
    ensures EscapeByte(t.kind)[0] != t.kind || Unescape(b[p..m]) != t.props
  {
    if t.kind == ESCAPE_CHAR {
      assert Body(t) == [ESCAPE_CHAR] + Escape(t.props);
      ScanNotAbsorbed(b, p, t.props, m);
    }
  }

  lemma ForestParts(b: seq<byte>, s: nat, ts: seq<Tree>)
    requires ts != [] && At(b, s, WriteAll(ts))
    requires var e := s + |WriteAll(ts)|; e == |b| || b[e] == NODE_END
    ensures At(b, s, Write(ts[0])) && At(b, s + |Write(ts[0])|, WriteAll(ts[1..]))
    ensures var p := s + |Write(ts[0])|;
            && s + |WriteAll(ts)| == p + |WriteAll(ts[1..])|
            && if ts[1..] == [] then p == |b| || b[p] == NODE_END else p < |b| && b[p] == NODE_START
  {
    hide At, Write, WriteAll, Body;
    var rest := ts[1..];
    WriteAllParts(ts);
    AtSplit(b, s, Write(ts[0]), WriteAll(rest));
    if rest != [] {
      WriteAllParts(rest);
      WriteShape(rest[0]);
      AtIndex(b, s + |Write(ts[0])|, WriteAll(rest), 0);
    } else {
      NothingWritten();
    }
  }

  lemma WriteAllParts(ts: seq<Tree>)
    requires ts != []
    ensures WriteAll(ts) == Write(ts[0]) + WriteAll(ts[1..])
  {
  }

  lemma NothingWritten()
    ensures WriteAll([]) == []
  {
  }

  /** The head of a written node is scanned to its marker; then come its children and its end. */
  lemma WrittenHead(b: seq<byte>, s: nat, ts: seq<Tree>)
    requires ts != [] && HeadWritable(ts[0]) && At(b, s, WriteAll(ts))
    requires var e := s + |WriteAll(ts)|; e == |b| || b[e] == NODE_END
    ensures var m := s + 2 + |Body(ts[0])|;
            && m < s + |Write(ts[0])| <= |b| && b[s + 1] == ts[0].kind == EscapeByte(ts[0].kind)[0]
            && NextMarker(b, s + 2) == Some(m)
            && b[m] == (if ts[0].children == [] then NODE_END else NODE_START)
            && m + |WriteAll(ts[0].children)| == s + |Write(ts[0])| - 1
            && At(b, m, WriteAll(ts[0].children)) && b[s + |Write(ts[0])| - 1] == NODE_END
            && b[s + 2..m] == Body(ts[0])
            && (ts[0].children == [] ==> WriteAll(ts[0].children) == [])
    ensures var p := s + |Write(ts[0])|;
            && At(b, p, WriteAll(ts[1..])) && s + |WriteAll(ts)| == p + |WriteAll(ts[1..])|
            && (ts[1..] == [] ==> WriteAll(ts[1..]) == [])
            && if ts[1..] == [] then p == |b| || b[p] == NODE_END else p < |b| && b[p] == NODE_START
  {
    hide At, Write, WriteAll, Body, NextMarker;
    NothingWritten();
    ForestParts(b, s, ts);
    WrittenParts(b, s, ts[0]);
    BodyReadBack(b, s + 2, ts[0]);
    AtSlice(b, s + 2, Body(ts[0]));
  }

  lemma AtSlice(b: seq<byte>, p: nat, part: seq<byte>)
    requires At(b, p, part)
    ensures b[p..p + |part|] == part
  {
  }

  /** One round of the reader: a node, its children and the siblings after it. */
  lemma ParseStep(b: seq<byte>, s: nat, m: nat, children: seq<Node>, p: nat, rest: seq<Node>, e: nat)
    requires s + 2 <= m < p <= |b| && NextMarker(b, s + 2) == Some(m)
    requires if children == [] then b[m] == NODE_END && p == m + 1
             else b[m] == NODE_START && ParseSiblings(b, m) == Some((children, p - 1))
    requires if rest == [] then e == p && (p == |b| || b[p] == NODE_END)
             else p < |b| && b[p] == NODE_START && ParseSiblings(b, p) == Some((rest, e))
    ensures ParseSiblings(b, s) == Some(([Node(s, m - s - 2, b[s + 1], children)] + rest, e))
  {
    var node := Node(s, m - s - 2, b[s + 1], children);
    assert [node] + [] == [node];
    assert ParseSiblings(b, s) == ParseAfter(b, s, node, p);
  }

  /** A writable forest, followed by NODE_END or the end of the file, is read back node by node. */
  lemma {:induction false} ParseWritten(b: seq<byte>, s: nat, ts: seq<Tree>)
    requires ts != [] && Writable(ts) && At(b, s, WriteAll(ts))
    requires var e := s + |WriteAll(ts)|; e == |b| || b[e] == NODE_END
    ensures s < |b| && ParseSiblings(b, s) == Some((Layout(ts, s), s + |WriteAll(ts)|))
    decreases ts
  {
    hide Write, WriteAll, At, NextMarker, ParseSiblings, Body, Layout, Absorbs;
    var t, rest := ts[0], ts[1..];
    var m, p := s + 2 + |Body(t)|, s + |Write(t)|;
    WrittenHead(b, s, ts);
    if t.children != [] {
      ParseWritten(b, m, t.children);
    }
    if rest != [] {
      ParseWritten(b, p, rest);
    }
    LayoutParts(ts, s);
    LayoutParts([], m);
    LayoutParts([], p);
    ParseStep(b, s, m, Layout(t.children, m), p, Layout(rest, p), s + |WriteAll(ts)|);
  }

  /** ... and the properties of each node are the ones that were written. */
  lemma {:induction false} DecodeWritten(b: seq<byte>, s: nat, ts: seq<Tree>)
    requires Writable(ts) && (ts != [] ==> At(b, s, WriteAll(ts)))
    requires ts != [] ==> var e := s + |WriteAll(ts)|; e == |b| || b[e] == NODE_END
    requires SpansSound(b, Layout(ts, s))
    ensures Decode(b, Layout(ts, s)) == ts
    decreases ts
  {
    hide Write, WriteAll, At, NextMarker, Body, Unescape, WellEscaped, Absorbs, Layout, Decode, SpansSound, EscapeByte;
    var ns := Layout(ts, s);
    LayoutParts(ts, s);
    if ts == [] {
      NothingUnsound(b);
    } else {
      var t := ts[0];
      WrittenHead(b, s, ts);
      DecodeParts(b, ns);
      assert ns[1..] == Layout(ts[1..], s + |Write(t)|);
      DecodeWritten(b, s + 2 + |Body(t)|, t.children);
      DecodeWritten(b, s + |Write(t)|, ts[1..]);
      UnescapeBody(t);
    }
  }

  lemma UnescapeBody(t: Tree)
    requires HeadWritable(t)
    ensures Unescape(Body(t)) == t.props
  {
    var b := Body(t) + [NODE_END];
    BodyReadBack(b, 0, t);
  }

  /** Conversely: a written forest that reads back as itself satisfies the type condition. */
  lemma {:induction false} ReadBackIsWritable(b: seq<byte>, s: nat, ts: seq<Tree>)
    requires ts != [] && At(b, s, WriteAll(ts))
    requires var e := s + |WriteAll(ts)|; e == |b| || b[e] == NODE_END
    requires s < |b| && ParseSiblings(b, s).Some?
    requires SpansSound(b, ParseSiblings(b, s).value.0)
    requires Decode(b, ParseSiblings(b, s).value.0) == ts
    ensures Writable(ts)
    decreases ts
  {
    hide Write, WriteAll, At, Body, NextMarker, ParseSiblings, Unescape, WellEscaped, Absorbs, Decode, SpansSound;
    var t, rest := ts[0], ts[1..];
    var m, p := s + 2 + |Body(t)|, s + |Write(t)|;
    var ns := ParseSiblings(b, s).value.0;
    HeadReadBack(b, s, ts, ns);
    WrittenHead(b, s, ts);
    ParseInverse(b, s, m);
    DecodeParts(b, ns);
    if t.children != [] {
      ReadBackIsWritable(b, m, t.children);
      ParseWritten(b, m, t.children);
    }
    if rest != [] {
      ReadBackIsWritable(b, p, rest);
    }
  }

  lemma HeadReadBack(b: seq<byte>, s: nat, ts: seq<Tree>, ns: seq<Node>)
    requires ts != [] && At(b, s, WriteAll(ts))
    requires var e := s + |WriteAll(ts)|; e == |b| || b[e] == NODE_END
    requires s < |b| && ParseSiblings(b, s).Some? && ns == ParseSiblings(b, s).value.0
    requires SpansSound(b, ns) && Decode(b, ns)[0].kind == ts[0].kind && Decode(b, ns)[0].props == ts[0].props
    ensures HeadWritable(ts[0])
  {
    hide Write, WriteAll, At, Body, Unescape, WellEscaped, Absorbs, Decode, SpansSound;
    DecodeParts(b, ns);
    var t := ts[0];
    ForestParts(b, s, ts);
    WrittenParts(b, s, t);
    var m := NextMarker(b, s + 2).value;
    assert Span(b, ns[0]) == b[s + 2..m];
    if !HeadWritable(t) {
      BodyLost(b, s + 2, t, m);
    }
  }

  // ---------------------------------------------------------------- main results

  /** Opening the file written for `root` yields exactly that tree. */
  predicate Rebuilds(root: Tree) {
    var b := File(root);
    var r := ParseSiblings(b, |HEADER|);
    r.Some? && SpansSound(b, r.value.0) && Decode(b, r.value.0) == [root]
  }

  lemma RootAt(root: Tree)
    ensures |HEADER| < |File(root)|
    ensures At(File(root), |HEADER|, WriteAll([root])) && |HEADER| + |WriteAll([root])| == |File(root)|
  {
    assert WriteAll([root]) == Write(root) + WriteAll([]);
  }

  /**
    The round trip holds for exactly the trees whose types respect the condition above; in
    particular for every tree whose types are below ESCAPE_CHAR.
   */
  lemma RoundTrip(root: Tree)
    ensures Rebuilds(root) <==> Writable([root])
  {
    RootAt(root);
    var b := File(root);
    if Writable([root]) {
      ParseWritten(b, |HEADER|, [root]);
      AcceptedSpansSound(b, |HEADER|);
      DecodeWritten(b, |HEADER|, [root]);
    }
    if Rebuilds(root) {
      ReadBackIsWritable(b, |HEADER|, [root]);
    }
  }

  predicate OrdinaryKinds(ts: seq<Tree>) {
    ts == [] || (ts[0].kind < ESCAPE_CHAR && OrdinaryKinds(ts[0].children) && OrdinaryKinds(ts[1..]))
  }

  lemma {:induction false} OrdinaryIsWritable(ts: seq<Tree>)
    requires OrdinaryKinds(ts)
    ensures Writable(ts)
  {
    if ts != [] {
      OrdinaryIsWritable(ts[0].children);
      OrdinaryIsWritable(ts[1..]);
    }
  }

  /** Ordinary types: the tree comes back, and the nodes are where the writer put them. */
  lemma OrdinaryRoundTrip(root: Tree)
    requires OrdinaryKinds([root])
    ensures Rebuilds(root)
    ensures ParseSiblings(File(root), |HEADER|) == Some((Layout([root], |HEADER|), |File(root)|))
  {
    OrdinaryIsWritable([root]);
    RoundTrip(root);
    RootAt(root);
    ParseWritten(File(root), |HEADER|, [root]);
  }

  /** The smallest tree that is lost: a bare node of type NODE_END. */
  lemma SpecialKindIsLost()
    ensures !Rebuilds(Tree(NODE_END, [], []))
    ensures !Rebuilds(Tree(ESCAPE_CHAR, [], []))
    ensures Rebuilds(Tree(ESCAPE_CHAR, [7], []))
  {
    RoundTrip(Tree(NODE_END, [], []));
    RoundTrip(Tree(ESCAPE_CHAR, [], []));
    RoundTrip(Tree(ESCAPE_CHAR, [7], []));
  }
}
