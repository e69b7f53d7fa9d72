/** Walking over everything a container holds, at any depth. */
module ContainerWalk {
  import opened Containment

  ghost predicate Forest(s: World, h: Heights) {
    Linked(s) && Ranked(s, h)
  }

  predicate In(s: World, xs: seq<Item>) {
    forall x :: x in xs ==> x in s
  }

  lemma ContentsIn(s: World, h: Heights, c: Item)
    requires Forest(s, h) && c in s
    ensures In(s, s[c].contents)
    ensures forall x :: x in s[c].contents ==> s[x].parent == c && h[x] < h[c]
  {
  }

  // ---------------------------------------------------------------- sizes

  /** How many items there are in and including `x`. */
  ghost function Size(s: World, h: Heights, x: Item): nat
    requires Forest(s, h) && x in s
    decreases h[x], |s[x].contents| + 1
  {
    1 + SizeBelow(s, h, x, s[x].contents)
  }

  ghost function SizeBelow(s: World, h: Heights, c: Item, xs: seq<Item>): nat
    requires Forest(s, h) && c in s && forall x :: x in xs ==> x in s && s[x].parent == c
    decreases h[c], |xs|
  {
    if xs == [] then 0 else Size(s, h, xs[0]) + SizeBelow(s, h, c, xs[1..])
  }

  ghost function Sizes(s: World, h: Heights, xs: seq<Item>): nat
    requires Forest(s, h) && In(s, xs)
  {
    if xs == [] then 0 else Size(s, h, xs[0]) + Sizes(s, h, xs[1..])
  }

  lemma {:induction false} SizeIs(s: World, h: Heights, c: Item, xs: seq<Item>)
    requires Forest(s, h) && c in s && forall x :: x in xs ==> x in s && s[x].parent == c
    ensures SizeBelow(s, h, c, xs) == Sizes(s, h, xs)
  {
    if xs != [] {
      SizeIs(s, h, c, xs[1..]);
    }
  }

  lemma {:induction false} SizesConcat(s: World, h: Heights, xs: seq<Item>, ys: seq<Item>)
    requires Forest(s, h) && In(s, xs) && In(s, ys)
    ensures In(s, xs + ys) && Sizes(s, h, xs + ys) == Sizes(s, h, xs) + Sizes(s, h, ys)
  {
    if xs == [] {
      assert xs + ys == ys;
    } else {
      SizesConcat(s, h, xs[1..], ys);
      assert (xs + ys)[1..] == xs[1..] + ys;
    }
  }

  // ---------------------------------------------------------------- the walk

  /** The containers among some items that are not empty. */
  function Bags(s: World, xs: seq<Item>): (r: seq<Item>)
    requires In(s, xs)
    ensures In(s, r) && forall c :: c in r ==> c.isContainer && s[c].contents != []
  {
    if xs == [] then [] else
    if xs[0].isContainer && s[xs[0]].contents != [] then [xs[0]] + Bags(s, xs[1..]) else Bags(s, xs[1..])
  }

  lemma {:induction false} BagsConcat(s: World, xs: seq<Item>, ys: seq<Item>)
    requires In(s, xs) && In(s, ys)
    ensures In(s, xs + ys) && Bags(s, xs + ys) == Bags(s, xs) + Bags(s, ys)
  {
    if xs == [] {
      assert xs + ys == ys;
    } else {
      BagsConcat(s, xs[1..], ys);
      assert (xs + ys)[1..] == xs[1..] + ys;
    }
  }

  lemma {:induction false} BagsSmaller(s: World, h: Heights, xs: seq<Item>)
    requires Forest(s, h) && In(s, xs)
    ensures Sizes(s, h, Bags(s, xs)) <= Sizes(s, h, xs)
  {
    if xs != [] {
      hide Forest, Size;
      BagsSmaller(s, h, xs[1..]);
      SizesStep(s, h, xs[0], Bags(s, xs[1..]));
    }
  }

  lemma SizesStep(s: World, h: Heights, x: Item, xs: seq<Item>)
    requires Forest(s, h) && x in s && In(s, xs)
    ensures In(s, [x] + xs) && Sizes(s, h, [x] + xs) == Size(s, h, x) + Sizes(s, h, xs)
  {
    assert ([x] + xs)[1..] == xs;
  }

  lemma LevelStep(s: World, x: Item, xs: seq<Item>)
    requires x in s && In(s, xs)
    ensures In(s, [x] + xs) && Level(s, [x] + xs) == s[x].contents + Level(s, xs)
  {
    assert ([x] + xs)[1..] == xs;
  }

  /** Looking into the first container in line leaves less to look into. */
  lemma WalkEnds(s: World, h: Heights, q: seq<Item>)
    requires Forest(s, h) && In(s, q) && q != []
    ensures In(s, s[q[0]].contents) && In(s, q[1..] + Bags(s, s[q[0]].contents))
    ensures Sizes(s, h, q[1..] + Bags(s, s[q[0]].contents)) < Sizes(s, h, q)
  {
    var c := q[0];
    ContentsIn(s, h, c);
    hide Forest;
    SizeIs(s, h, c, s[c].contents);
    BagsSmaller(s, h, s[c].contents);
    SizesConcat(s, h, q[1..], Bags(s, s[c].contents));
  }

  /** What a queue of containers makes one look at. */
  ghost function Walk(s: World, h: Heights, q: seq<Item>): seq<Item>
    requires Forest(s, h) && In(s, q)
    decreases Sizes(s, h, q)
  {
    if q == [] then [] else
    WalkEnds(s, h, q);
    s[q[0]].contents + Walk(s, h, q[1..] + Bags(s, s[q[0]].contents))
  }

  // ---------------------------------------------------------------- level by level

  /** The contents of some items, one after the other. */
  function Level(s: World, xs: seq<Item>): seq<Item>
    requires In(s, xs)
  {
    if xs == [] then [] else s[xs[0]].contents + Level(s, xs[1..])
  }

  lemma {:induction false} LevelConcat(s: World, xs: seq<Item>, ys: seq<Item>)
    requires In(s, xs) && In(s, ys)
    ensures In(s, xs + ys) && Level(s, xs + ys) == Level(s, xs) + Level(s, ys)
  {
    if xs == [] {
      assert xs + ys == ys;
    } else {
      LevelConcat(s, xs[1..], ys);
      hide In, Level;
      LevelFirst(s, xs);
      LevelFirst(s, xs + ys);
      assert (xs + ys)[1..] == xs[1..] + ys;
    }
  }

  lemma LevelFirst(s: World, xs: seq<Item>)
    requires In(s, xs) && xs != []
    ensures xs[0] in s && In(s, xs[1..]) && Level(s, xs) == s[xs[0]].contents + Level(s, xs[1..])
  {
  }

  lemma {:induction false} LevelOfBags(s: World, h: Heights, xs: seq<Item>)
    requires Forest(s, h) && In(s, xs)
    ensures Level(s, Bags(s, xs)) == Level(s, xs)
  {
    if xs != [] {
      assert !xs[0].isContainer ==> s[xs[0]].contents == [];
      hide Forest;
      LevelOfBags(s, h, xs[1..]);
      LevelStep(s, xs[0], Bags(s, xs[1..]));
    }
  }

  lemma {:induction false} LevelSmaller(s: World, h: Heights, xs: seq<Item>)
    requires Forest(s, h) && In(s, xs)
    ensures In(s, Level(s, xs)) && Sizes(s, h, Level(s, xs)) + |xs| == Sizes(s, h, xs)
  {
    if xs != [] {
      ContentsIn(s, h, xs[0]);
      hide Forest;
      LevelSmaller(s, h, xs[1..]);
      SizeIs(s, h, xs[0], s[xs[0]].contents);
      SizesConcat(s, h, s[xs[0]].contents, Level(s, xs[1..]));
    }
  }

  /** All that is inside some items, level by level. */
  ghost function ByLevels(s: World, h: Heights, xs: seq<Item>): seq<Item>
    requires Forest(s, h) && In(s, xs)
    decreases Sizes(s, h, xs)
  {
    if xs == [] then [] else
    LevelSmaller(s, h, xs);
    Level(s, xs) + ByLevels(s, h, Level(s, xs))
  }

  /** The queue takes what is left of one level first, and then the next. */
  lemma {:induction false} WalkIsByLevels(s: World, h: Heights, q: seq<Item>, p: seq<Item>)
    requires Forest(s, h) && In(s, q) && In(s, p)
    ensures In(s, q + Bags(s, p)) && In(s, Level(s, q)) && In(s, p + Level(s, q))
    ensures Walk(s, h, q + Bags(s, p)) == Level(s, q) + ByLevels(s, h, p + Level(s, q))
    decreases Sizes(s, h, q) + Sizes(s, h, Bags(s, p)), |Bags(s, p)|
  {
    hide Forest, In, Size, Sizes, Level, Bags, Walk, ByLevels;
    LevelSmaller(s, h, q);
    SizesConcat(s, h, q, Bags(s, p));
    SizesConcat(s, h, p, Level(s, q));
    if q != [] {
      QueueStep(s, h, q, p);
      WalkIsByLevels(s, h, q[1..], p + s[q[0]].contents);
      WalkStep(s, h, q, p);
    } else {
      LevelOfBags(s, h, p);
      LevelSmaller(s, h, p);
      None(s, h);
      if Bags(s, p) != [] {
        WalkIsByLevels(s, h, Bags(s, p), []);
      }
      NextLevel(s, h, p);
    }
  }

  lemma None(s: World, h: Heights)
    requires Forest(s, h)
    ensures In(s, []) && Sizes(s, h, []) == 0 && Bags(s, []) == [] && Level(s, []) == []
  {
  }

  lemma WalkStep(s: World, h: Heights, q: seq<Item>, p: seq<Item>)
    requires Forest(s, h) && In(s, q) && In(s, p) && q != []
    requires In(s, s[q[0]].contents) && In(s, p + s[q[0]].contents) && In(s, Level(s, q[1..]))
    requires Bags(s, p + s[q[0]].contents) == Bags(s, p) + Bags(s, s[q[0]].contents)
    ensures In(s, q[1..] + Bags(s, p + s[q[0]].contents)) && In(s, q + Bags(s, p)) && In(s, Level(s, q))
    ensures Walk(s, h, q + Bags(s, p)) == s[q[0]].contents + Walk(s, h, q[1..] + Bags(s, p + s[q[0]].contents))
    ensures p + Level(s, q) == (p + s[q[0]].contents) + Level(s, q[1..])
    ensures Level(s, q) == s[q[0]].contents + Level(s, q[1..])
  {
    hide Forest, Bags, Walk, Sizes;
    var c, b := s[q[0]].contents, Bags(s, p);
    Regroup(q, b, Bags(s, c));
    SizesConcat(s, h, q, b);
    WalkFirst(s, h, q + b);
    hide In;
  }

  lemma Regroup(q: seq<Item>, b: seq<Item>, c: seq<Item>)
    requires q != []
    ensures (q + b)[0] == q[0] && (q + b)[1..] + c == q[1..] + (b + c)
  {
  }

  lemma WalkFirst(s: World, h: Heights, q: seq<Item>)
    requires Forest(s, h) && In(s, q) && q != []
    ensures In(s, s[q[0]].contents) && In(s, q[1..] + Bags(s, s[q[0]].contents))
    ensures Walk(s, h, q) == s[q[0]].contents + Walk(s, h, q[1..] + Bags(s, s[q[0]].contents))
  {
    WalkEnds(s, h, q);
  }

  lemma NextLevel(s: World, h: Heights, p: seq<Item>)
    requires Forest(s, h) && In(s, p) && In(s, Level(s, p)) && In(s, Level(s, Bags(s, p)))
    requires Level(s, Bags(s, p)) == Level(s, p)
    requires Bags(s, p) != [] ==>
               && In(s, Bags(s, p) + Bags(s, [])) && In(s, [] + Level(s, Bags(s, p)))
               && Walk(s, h, Bags(s, p) + Bags(s, []))
                   == Level(s, Bags(s, p)) + ByLevels(s, h, [] + Level(s, Bags(s, p)))
    ensures In(s, [] + Bags(s, p)) && In(s, p + Level(s, []))
    ensures Walk(s, h, [] + Bags(s, p)) == Level(s, []) + ByLevels(s, h, p + Level(s, []))
  {
    hide Forest, Size, Sizes;
    var b := Bags(s, p);
    assert [] + b == b && p + Level(s, []) == p;
    if b != [] {
      assert b + Bags(s, []) == b && [] + Level(s, b) == Level(s, b);
    }
  }

  lemma QueueStep(s: World, h: Heights, q: seq<Item>, p: seq<Item>)
    requires Forest(s, h) && In(s, q) && In(s, p) && q != []
    ensures var c := s[q[0]].contents;
            && In(s, q[1..]) && In(s, c) && In(s, p + c)
            && Bags(s, p + c) == Bags(s, p) + Bags(s, c)
            && Sizes(s, h, q[1..]) + Sizes(s, h, Bags(s, p + c)) < Sizes(s, h, q) + Sizes(s, h, Bags(s, p))
  {
    var c := s[q[0]].contents;
    ContentsIn(s, h, q[0]);
    hide Forest;
    BagsConcat(s, p, c);
    SizesConcat(s, h, Bags(s, p), Bags(s, c));
    BagsSmaller(s, h, c);
    SizeIs(s, h, q[0], c);
  }

  // ---------------------------------------------------------------- every item once

  function CountOf(xs: seq<Item>, x: Item): nat {
    if xs == [] then 0 else (if xs[0] == x then 1 else 0) + CountOf(xs[1..], x)
  }

  lemma {:induction false} CountConcat(xs: seq<Item>, ys: seq<Item>, x: Item)
    ensures CountOf(xs + ys, x) == CountOf(xs, x) + CountOf(ys, x)
  {
    if xs == [] {
      assert xs + ys == ys;
    } else {
      CountConcat(xs[1..], ys, x);
      assert (xs + ys)[1..] == xs[1..] + ys;
    }
  }

  lemma {:induction false} CountedIn(xs: seq<Item>, x: Item)
    ensures CountOf(xs, x) > 0 <==> x in xs
  {
    if xs != [] {
      CountedIn(xs[1..], x);
    }
  }

  /** `x` is somewhere inside `c`. */
  ghost predicate Inside(s: World, h: Heights, c: Item, x: Item)
    requires Ranked(s, h)
  {
    x in s && x != c && c in Up(s, h, x)
  }

  /** How many of some items have `x` inside. */
  ghost function Insides(s: World, h: Heights, xs: seq<Item>, x: Item): nat
    requires Ranked(s, h)
  {
    if xs == [] then 0 else (if Inside(s, h, xs[0], x) then 1 else 0) + Insides(s, h, xs[1..], x)
  }

  lemma {:induction false} InsidesConcat(s: World, h: Heights, xs: seq<Item>, ys: seq<Item>, x: Item)
    requires Ranked(s, h)
    ensures Insides(s, h, xs + ys, x) == Insides(s, h, xs, x) + Insides(s, h, ys, x)
  {
    if xs == [] {
      assert xs + ys == ys;
    } else {
      InsidesConcat(s, h, xs[1..], ys, x);
      assert (xs + ys)[1..] == xs[1..] + ys;
    }
  }

  lemma {:induction false} OneWayUp(s: World, h: Heights, x: Item, y: Item, z: Item)
    requires Ranked(s, h) && x in s && y in Up(s, h, x) && z in Up(s, h, x)
    requires y in s && z in s && s[y].parent == s[z].parent != null
    ensures y == z
    decreases Above(h, x)
  {
    NothingContainsItself(s, h, x);
    if s[x].parent != null {
      assert s[x].parent !in Above(h, s[x].parent) && s[x].parent in Above(h, x);
      NothingContainsItself(s, h, s[x].parent);
      if x != y && x != z {
        OneWayUp(s, h, s[x].parent, y, z);
      }
    }
  }

  /** The way up to a container comes through one of its contents. */
  lemma {:induction false} LastStep(s: World, h: Heights, c: Item, x: Item) returns (y: Item)
    requires Forest(s, h) && c in s && Inside(s, h, c, x)
    ensures y in s[c].contents && y in Up(s, h, x)
    decreases Above(h, x)
  {
    UpStarts(s, h, x);
    assert s[x].parent != null && s[x].parent in s;
    assert s[x].parent !in Above(h, s[x].parent) && s[x].parent in Above(h, x);
    if s[x].parent == c {
      y := x;
    } else {
      y := LastStep(s, h, c, s[x].parent);
    }
  }

  /** How many of some items are in a set. */
  function Hits(xs: seq<Item>, a: set<Item>): nat {
    if xs == [] then 0 else (if xs[0] in a then 1 else 0) + Hits(xs[1..], a)
  }

  lemma {:induction false} HitsNone(xs: seq<Item>, a: set<Item>)
    requires forall x :: x in xs ==> x !in a
    ensures Hits(xs, a) == 0
  {
    if xs != [] {
      HitsNone(xs[1..], a);
    }
  }

  lemma {:induction false} HitsOne(xs: seq<Item>, a: set<Item>, y: Item)
    requires Distinct(xs) && y in xs && forall x :: x in xs ==> (x in a <==> x == y)
    ensures Hits(xs, a) == 1
  {
    if xs[0] == y {
      HitsNone(xs[1..], a);
    } else {
      HitsOne(xs[1..], a, y);
    }
  }

  /** What is inside a container is inside exactly one of its contents, or is exactly one of them. */
  lemma InsideOnce(s: World, h: Heights, c: Item, x: Item)
    requires Forest(s, h) && c in s && x in s
    ensures Hits(s[c].contents, Up(s, h, x)) == if Inside(s, h, c, x) then 1 else 0
  {
    var xs, a := s[c].contents, Up(s, h, x);
    ContentsIn(s, h, c);
    if Inside(s, h, c, x) {
      var y := LastStep(s, h, c, x);
      forall z | z in xs ensures z in a <==> z == y {
        if z in a {
          OneWayUp(s, h, x, y, z);
        }
      }
      HitsOne(xs, a, y);
    } else {
      NothingContainsItself(s, h, x);
      UpClosed(s, h, x);
      HitsNone(xs, a);
    }
  }

  lemma {:induction false} HitsAre(s: World, h: Heights, xs: seq<Item>, x: Item)
    requires Ranked(s, h) && x in s
    ensures Hits(xs, Up(s, h, x)) == CountOf(xs, x) + Insides(s, h, xs, x)
  {
    UpStarts(s, h, x);
    if xs != [] {
      HitsAre(s, h, xs[1..], x);
    }
  }

  lemma {:induction false} OnlyBags(s: World, h: Heights, xs: seq<Item>, x: Item)
    requires Forest(s, h) && In(s, xs)
    ensures Insides(s, h, Bags(s, xs), x) == Insides(s, h, xs, x)
  {
    if xs != [] {
      OnlyBags(s, h, xs[1..], x);
      if Inside(s, h, xs[0], x) {
        var y := LastStep(s, h, xs[0], x);
      }
      InsidesConcat(s, h, [xs[0]], Bags(s, xs[1..]), x);
    }
  }

  /** The walk meets an item as often as it is inside the containers in the queue. */
  lemma {:induction false} WalkCounts(s: World, h: Heights, q: seq<Item>, x: Item)
    requires Forest(s, h) && In(s, q) && x in s
    ensures CountOf(Walk(s, h, q), x) == Insides(s, h, q, x)
    decreases Sizes(s, h, q)
  {
    hide Linked, Ranked, Up, Bags, Size, Sizes, Hits, Inside;
    if q != [] {
      WalkEnds(s, h, q);
      var c := s[q[0]].contents;
      var q' := q[1..] + Bags(s, c);
      WalkCounts(s, h, q', x);
      CountConcat(c, Walk(s, h, q'), x);
      InsidesConcat(s, h, q[1..], Bags(s, c), x);
      OnlyBags(s, h, c, x);
      HitsAre(s, h, c, x);
      InsideOnce(s, h, q[0], x);
    }
  }

  /** All that is inside a container. */
  ghost function Everything(s: World, h: Heights, c: Item): set<Item>
    requires Ranked(s, h)
  {
    set x | x in s && Inside(s, h, c, x)
  }

  lemma {:induction false} WalkIn(s: World, h: Heights, q: seq<Item>)
    requires Forest(s, h) && In(s, q)
    ensures In(s, Walk(s, h, q))
    decreases Sizes(s, h, q)
  {
    hide Forest, Sizes;
    if q != [] {
      WalkEnds(s, h, q);
      WalkIn(s, h, q[1..] + Bags(s, s[q[0]].contents));
    }
  }

  lemma {:induction false} OnceEach(xs: seq<Item>, a: set<Item>)
    requires forall x :: x in xs ==> CountOf(xs, x) == 1
    requires forall x :: x in xs <==> x in a
    ensures Distinct(xs) && |xs| == |a|
    decreases |xs|
  {
    if xs != [] {
      var ys := xs[1..];
      forall y | y in ys ensures CountOf(ys, y) == 1 && y != xs[0] {
        CountedIn(ys, y);
        assert y in xs;
      }
      OnceEach(ys, a - {xs[0]});
    } else {
      assert a == {};
    }
  }

  /** Walking from a container meets everything inside it, once, level by level. */
  lemma WalkMeetsAll(s: World, h: Heights, c: Item)
    requires Forest(s, h) && c in s
    ensures In(s, [c]) && In(s, Bags(s, [c])) && In(s, s[c].contents)
    ensures var w := Walk(s, h, Bags(s, [c]));
            && w == s[c].contents + ByLevels(s, h, s[c].contents)
            && (forall x :: x in w <==> x in Everything(s, h, c))
            && Distinct(w) && |w| == |Everything(s, h, c)|
  {
    ContentsIn(s, h, c);
    hide Forest, Linked, Ranked, Sizes, Up, Inside;
    var q, w := Bags(s, [c]), Walk(s, h, Bags(s, [c]));
    WalkIsByLevels(s, h, [], [c]);
    assert [] + q == q && Level(s, []) == [] && [c] + [] == [c];
    assert ByLevels(s, h, [c]) == Level(s, [c]) + ByLevels(s, h, Level(s, [c]));
    assert Level(s, [c]) == s[c].contents + [] == s[c].contents;
    WalkIn(s, h, q);
    forall x | x in s
      ensures CountOf(w, x) == (if Inside(s, h, c, x) then 1 else 0) && (x in w <==> Inside(s, h, c, x))
    {
      WalkCounts(s, h, q, x);
      OnlyBags(s, h, [c], x);
      CountedIn(w, x);
    }
    InsideIn(s, h, c);
    hide Walk, Bags;
    OnceEach(w, Everything(s, h, c));
  }

  lemma InsideIn(s: World, h: Heights, c: Item)
    requires Ranked(s, h)
    ensures forall x :: x in Everything(s, h, c) <==> x in s && Inside(s, h, c, x)
  {
  }
}
