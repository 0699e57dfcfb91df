/** Positions and list shapes of the three canned layouts, as pure functions of their inputs. */
module Layout {
  import opened Wrappers
  import opened Ids
  import opened Elements
  import opened Lookup

  /** x of item i of a sequential chain: one shape width plus one spacing per step. */
  function SequentialX(startX: real, i: nat): (r: real)
  {
    startX + i as real * (DefaultElementWidth + DefaultSpacingX)
  }

  /** y of item i of m in the parallel fan: i - m/2 spacings from the input's y (real division). */
  function ParallelItemY(startY: real, i: nat, m: nat): (r: real)
  {
    startY + (i as real - m as real / 2.0) * DefaultSpacingY
  }

  /** x of the parallel items: two spacings right of the input. */
  function ParallelX(startX: real): real
  {
    startX + DefaultSpacingX * 2.0
  }

  /** x of the parallel output: two more spacings right of the items. */
  function ParallelOutputX(startX: real): real
  {
    ParallelX(startX) + DefaultSpacingX * 2.0
  }

  /** Distance of the routing destinations from the router: one and a half spacings. */
  const RoutingRadius: real := DefaultSpacingX * 1.5

  /** Where the routing layout puts its n destinations: destination i at RoutingRadius from
      (startX, startY) in the direction unit(i, n), which stands for (cos, sin) of the angle
      i * 2*pi/n. */
  function RoutingSpokes(startX: real, startY: real, unit: (nat, nat) -> Point, n: nat): (ps: seq<Point>)
    ensures |ps| == n
    ensures forall i :: 0 <= i < n ==>
              ps[i] == Point(startX + RoutingRadius * unit(i, n).x, startY + RoutingRadius * unit(i, n).y)
  {
    seq(n, i requires 0 <= i < n => Point(startX + RoutingRadius * unit(i, n).x, startY + RoutingRadius * unit(i, n).y))
  }

  /** Where the parallel layout puts its m items: one column at ParallelX, item i at ParallelItemY. */
  function ParallelSpokes(startX: real, startY: real, m: nat): (ps: seq<Point>)
    ensures |ps| == m
    ensures forall i :: 0 <= i < m ==> ps[i] == Point(ParallelX(startX), ParallelItemY(startY, i, m))
  {
    seq(m, i requires 0 <= i < m => Point(ParallelX(startX), ParallelItemY(startY, i, m)))
  }

  /** With a unit direction, every routing destination lies exactly RoutingRadius from the router. */
  lemma RoutingOnCircle(startX: real, startY: real, unit: (nat, nat) -> Point, n: nat, i: nat)
    requires i < n && unit(i, n).x * unit(i, n).x + unit(i, n).y * unit(i, n).y == 1.0
    ensures var p := RoutingSpokes(startX, startY, unit, n)[i];
            (p.x - startX) * (p.x - startX) + (p.y - startY) * (p.y - startY) == RoutingRadius * RoutingRadius
  {
    var u := unit(i, n);
    var p := RoutingSpokes(startX, startY, unit, n)[i];
    assert p.x - startX == RoutingRadius * u.x && p.y - startY == RoutingRadius * u.y;
    calc {
      (RoutingRadius * u.x) * (RoutingRadius * u.x) + (RoutingRadius * u.y) * (RoutingRadius * u.y);
      RoutingRadius * RoutingRadius * (u.x * u.x + u.y * u.y);
    }
  }

  /** Consecutive shapes of a chain are separated by exactly one spacing, so every
      chain arrow is a horizontal segment of that length. */
  lemma SequentialGap(startX: real, i: nat)
    ensures SequentialX(startX, i + 1) - (SequentialX(startX, i) + DefaultElementWidth) == DefaultSpacingX
  {
  }

  /** Chain shapes never overlap: every shape ends before any later one starts. */
  lemma SequentialNoOverlap(startX: real, i: nat, j: nat)
    requires i < j
    ensures SequentialX(startX, i) + DefaultElementWidth < SequentialX(startX, j)
  {
  }

  /** Parallel item i of m sits level with the input exactly when i = m/2, above it
      exactly when i < m/2, and below it otherwise. */
  lemma ParallelItemSide(startY: real, i: nat, m: nat)
    ensures ParallelItemY(startY, i, m) == startY <==> 2 * i == m
    ensures ParallelItemY(startY, i, m) < startY <==> 2 * i < m
    ensures ParallelItemY(startY, i, m) > startY <==> 2 * i > m
  {
  }

  /** The fan is centred half a spacing ABOVE the input when mirrored items are paired:
      item i and item m-1-i average to startY - spacing/2 (the source's m/2 centring). */
  lemma ParallelFanOffCentre(startY: real, i: nat, m: nat)
    requires i < m
    ensures (ParallelItemY(startY, i, m) + ParallelItemY(startY, m - 1 - i, m)) / 2.0
            == startY - DefaultSpacingY / 2.0
  {
  }

  /** Colour i of a palette used cyclically (Python's colors[i % len(colors)]). */
  function Cycle(palette: seq<string>, i: nat): string
    requires |palette| > 0
  {
    palette[i % |palette|]
  }

  /** Number of non-empty captions: one text element is created for each. */
  function CaptionCount(items: seq<string>): (n: nat)
    ensures n <= |items|
    ensures n == |items| <==> forall i :: 0 <= i < |items| ==> items[i] != ""
  {
    if items == [] then 0
    else CaptionCount(items[..|items| - 1]) + (if items[|items| - 1] != "" then 1 else 0)
  }

  /** Shapes each followed by their caption when they have one: the first part of a chain's result. */
  function ShapesAndCaptions(shapes: seq<Element>, captions: seq<Element?>): (r: seq<Element?>)
    requires |shapes| == |captions|
  {
    if shapes == [] then []
    else
      var n := |shapes| - 1;
      ShapesAndCaptions(shapes[..n], captions[..n]) + [shapes[n]] + (if captions[n] != null then [captions[n]] else [])
  }

  /** The chain's result lists every shape and exactly the captions that exist: one
      element per item plus one per non-empty caption. */
  lemma {:induction false} ChainResultLength(shapes: seq<Element>, captions: seq<Element?>, items: seq<string>)
    requires |shapes| == |captions| == |items|
    requires forall j :: 0 <= j < |items| ==> (captions[j] != null <==> items[j] != "")
    ensures |ShapesAndCaptions(shapes, captions)| == |shapes| + CaptionCount(items)
  {
    if shapes != [] {
      var n := |shapes| - 1;
      ChainResultLength(shapes[..n], captions[..n], items[..n]);
    }
  }

  /** One more shape (and its caption, if any) at the end of the chain's result. */
  lemma ShapesAndCaptionsStep(shapes: seq<Element>, captions: seq<Element?>, s: Element, c: Element?)
    requires |shapes| == |captions|
    ensures ShapesAndCaptions(shapes + [s], captions + [c])
            == ShapesAndCaptions(shapes, captions) + [s] + (if c != null then [c] else [])
  {
    assert (shapes + [s])[..|shapes|] == shapes;
    assert (captions + [c])[..|captions|] == captions;
  }

  /** Shapes each followed by their caption slot (None included), as routing and parallel append them. */
  function Pairs(shapes: seq<Element>, captions: seq<Element?>): (r: seq<Element?>)
    requires |shapes| == |captions|
    ensures |r| == 2 * |shapes|
  {
    if shapes == [] then []
    else
      var n := |shapes| - 1;
      Pairs(shapes[..n], captions[..n]) + [shapes[n], captions[n]]
  }

  /** Shape, caption slot and arrow per destination, as the routing and parallel loops return them. */
  function Triples(shapes: seq<Element>, captions: seq<Element?>, arrows: seq<Element>): (r: seq<Element?>)
    requires |shapes| == |captions| == |arrows|
    ensures |r| == 3 * |shapes|
  {
    if shapes == [] then []
    else
      var n := |shapes| - 1;
      Triples(shapes[..n], captions[..n], arrows[..n]) + [shapes[n], captions[n], arrows[n]]
  }

  /** Shape i sits at position 2i of the pairs, its caption slot right after it. */
  lemma {:induction false} PairsAt(shapes: seq<Element>, captions: seq<Element?>, i: nat)
    requires |shapes| == |captions| && i < |shapes|
    ensures Pairs(shapes, captions)[2 * i] == shapes[i] && Pairs(shapes, captions)[2 * i + 1] == captions[i]
    decreases |shapes|
  {
    var n := |shapes| - 1;
    if i < n {
      PairsAt(shapes[..n], captions[..n], i);
    }
  }

  /** Shape i sits at position 3i of the triples, then its caption slot, then its arrow. */
  lemma {:induction false} TriplesAt(shapes: seq<Element>, captions: seq<Element?>, arrows: seq<Element>, i: nat)
    requires |shapes| == |captions| == |arrows| && i < |shapes|
    ensures var r := Triples(shapes, captions, arrows);
            r[3 * i] == shapes[i] && r[3 * i + 1] == captions[i] && r[3 * i + 2] == arrows[i]
    decreases |shapes|
  {
    var n := |shapes| - 1;
    if i < n {
      TriplesAt(shapes[..n], captions[..n], arrows[..n], i);
    }
  }

  /** The position of the first occurrence of x in s. */
  function FirstIndex<T(==)>(s: seq<T>, x: T): (i: nat)
    requires x in s
    ensures i < |s| && s[i] == x && forall k :: 0 <= k < i ==> s[k] != x
  {
    if s[0] == x then 0
    else FirstIndex(s[1..], x) + 1
  }

  /** Removing the first x after a head that is not x keeps the head. */
  lemma SkipHead<T>(s: seq<T>, x: T, rest: seq<T>)
    requires x in s && s[0] != x
    requires x in s[1..] ==> rest == s[1..][..FirstIndex(s[1..], x)] + s[1..][FirstIndex(s[1..], x) + 1..]
    ensures x in s[1..] && [s[0]] + rest == s[..FirstIndex(s, x)] + s[FirstIndex(s, x) + 1..]
  {
    var i := FirstIndex(s, x);
    assert s[1..][i - 1] == x;
    var j := FirstIndex(s[1..], x);
    assert FirstIndex(s, x) == j + 1;
    assert s[..j + 1] == [s[0]] + s[1..][..j];
    assert s[j + 2..] == s[1..][j + 1..];
  }

  /** Python's list.remove: drop the first occurrence of x. Python raises ValueError when x is
      absent; the model leaves the list as it is, a case the agent never reaches because it
      removes only entries it has just checked with `in`. */
  function RemoveFirst<T(==)>(s: seq<T>, x: T): (r: seq<T>)
    ensures x !in s ==> r == s
    ensures x in s ==> |r| == |s| - 1
    ensures x in s ==> r == s[..FirstIndex(s, x)] + s[FirstIndex(s, x) + 1..]
  {
    if s == [] then []
    else if s[0] == x then s[1..]
    else
      var rest := RemoveFirst(s[1..], x);
      assert x in s ==> x in s[1..] && [s[0]] + rest == s[..FirstIndex(s, x)] + s[FirstIndex(s, x) + 1..] by {
        if x in s {
          SkipHead(s, x, rest);
        }
      }
      [s[0]] + rest
  }

  /** Removing an element that was appended after a list it does not occur in undoes the append. */
  lemma RemoveFirstAppended<T>(s: seq<T>, x: T, rest: seq<T>)
    requires x !in s
    ensures RemoveFirst(s + [x] + rest, x) == s + rest
  {
    var t := s + [x] + rest;
    assert t[|s|] == x;
    var i := FirstIndex(t, x);
    assert i == |s|;
    assert t[..i] == s && t[i + 1..] == rest;
  }

  /** The references shape j of a chain holds once the first k arrows are drawn: the arrow
      coming in from shape j-1 and the arrow going out to shape j+1, when drawn. */
  function ChainRefs(arrows: seq<Element>, j: nat, k: nat): seq<BoundRef>
    requires k <= |arrows|
  {
    (if 0 < j <= k then [BoundRef(Arrow, arrows[j - 1].base.id)] else [])
    + (if j < k then [BoundRef(Arrow, arrows[j].base.id)] else [])
  }

  /** Shape j of a chain holds the reference to its caption followed by those of the
      first k arrows that touch it. */
  ghost predicate BoundAt(shapes: seq<Element>, captions: seq<Element?>, arrows: seq<Element>, j: nat, k: nat)
    requires j < |shapes| == |captions| && k <= |arrows|
    reads shapes[j]
  {
    shapes[j].boundElements == TextRefOf(captions[j]) + ChainRefs(arrows, j, k)
  }

  /** Every shape of a chain holds its caption's reference and those of the first k arrows. */
  ghost predicate ChainBound(shapes: seq<Element>, captions: seq<Element?>, arrows: seq<Element>, k: nat)
    reads set j | 0 <= j < |shapes| :: shapes[j]
  {
    && |shapes| == |captions| && k <= |arrows|
    && forall j :: 0 <= j < |shapes| ==> BoundAt(shapes, captions, arrows, j, k)
  }

  /** Removing two distinct entries appended after a list neither occurs in, first the
      one appended first, restores the list. */
  lemma DropPair<T>(before: seq<T>, s: T, e: T)
    requires s !in before && e !in before && s != e
    ensures s in before + [s, e] && RemoveFirst(before + [s, e], s) == before + [e]
    ensures e in before + [e] && RemoveFirst(before + [e], e) == before
  {
    assert before + [s, e] == before + [s] + [e];
    RemoveFirstAppended(before, s, [e]);
    assert before + [e] == before + [e] + [];
    RemoveFirstAppended(before, e, []);
  }

  /** The "id" prefix of a shape kind. */
  function ShapePrefix(kind: Kind): string
  {
    if kind == Rectangle then "rect" else "ellipse"
  }

  /** The roundness type of a shape kind: rounded corners for a rectangle, the ellipse tag otherwise. */
  function ShapeRoundness(kind: Kind): int
  {
    if kind == Rectangle then 3 else 2
  }

  /** Where a shape's caption goes: centred on the shape, assuming 0.6 of the default
      font size per character and a line of the default font size. */
  function CaptionPosition(x: real, y: real, width: real, height: real, caption: string): Point
  {
    Point(x + width / 2.0 - |caption| as real * DefaultTextSize as real * 0.3,
          y + height / 2.0 - DefaultTextSize as real / 2.0)
  }

  /** A shape as a layout places it, with its caption inside when the caption is non-empty. */
  ghost predicate PlacedShape(s: Element, c: Element?, caption: string, kind: Kind,
                              x: real, y: real, color: string, group: Option<string>)
  {
    && s.base.kind == kind && s.extra == Shape
    && s.base.x == x && s.base.y == y
    && s.base.width == DefaultElementWidth && s.base.height == DefaultElementHeight
    && s.base.id == FormatId(ShapePrefix(kind), IdNumber(s.base.id))
    && s.base.backgroundColor == color && s.base.roundness == Some(ShapeRoundness(kind))
    && s.base.groupIds == GroupTag(group)
    && (c != null <==> caption != "")
    && (c != null ==>
          && c != s && c.base.kind == Text
          && c.extra == TextPart(caption, DefaultTextSize, 5, "center", "middle", Some(s.base.id), caption, true, 1.25)
          && Point(c.base.x, c.base.y) == CaptionPosition(x, y, DefaultElementWidth, DefaultElementHeight, caption)
          && c.base.width == TextWidth(caption, DefaultTextSize) && c.base.height == TextHeight(DefaultTextSize))
  }

  /** An arrow as create_arrow builds it between the default connection points of s and e. */
  ghost predicate DefaultArrow(a: Element, s: Element, e: Element, group: Option<string>)
  {
    ArrowFrom(a, s, e, RightMiddle(s), LeftMiddle(e), group)
  }

  /** Arrow i of a chain is the default arrow from shape i to shape i+1. */
  ghost predicate ArrowAt(shapes: seq<Element>, arrows: seq<Element>, i: nat, group: Option<string>)
    requires i < |arrows| && i + 1 < |shapes|
  {
    DefaultArrow(arrows[i], shapes[i], shapes[i + 1], group)
  }

  /** The arrows drawn so far each link one shape of the chain to the next, in order. */
  ghost predicate ChainArrows(shapes: seq<Element>, arrows: seq<Element>, group: Option<string>)
  {
    && (|arrows| == 0 || |arrows| < |shapes|)
    && forall i :: 0 <= i < |arrows| ==> ArrowAt(shapes, arrows, i, group)
  }

  /** Drawing the next arrow of a chain keeps the arrows linking consecutive shapes. */
  lemma ChainArrowsStep(shapes: seq<Element>, arrows: seq<Element>, a: Element, group: Option<string>)
    requires ChainArrows(shapes, arrows, group) && |arrows| + 1 < |shapes|
    requires DefaultArrow(a, shapes[|arrows|], shapes[|arrows| + 1], group)
    ensures ChainArrows(shapes, arrows + [a], group)
  {
    var arrows' := arrows + [a];
    forall i | 0 <= i < |arrows'|
      ensures ArrowAt(shapes, arrows', i, group)
    {
      if i < |arrows| {
        assert ArrowAt(shapes, arrows, i, group);
      }
    }
  }

  /** When the next arrow's reference is appended to the two shapes it links, and shape j
      held the references of the first k arrows, it now holds those of the first k+1. */
  lemma BoundAtStep(shapes: seq<Element>, captions: seq<Element?>, arrows: seq<Element>, a: Element,
                    j: nat, before: seq<BoundRef>)
    requires j < |shapes| == |captions| && |arrows| + 1 < |shapes|
    requires before == TextRefOf(captions[j]) + ChainRefs(arrows, j, |arrows|)
    requires shapes[j].boundElements ==
               before + (if j == |arrows| || j == |arrows| + 1 then [BoundRef(Arrow, a.base.id)] else [])
    ensures BoundAt(shapes, captions, arrows + [a], j, |arrows| + 1)
  {
  }

  /** Shape j of a chain is placed at SequentialX(startX, j), coloured from the palette
      cyclically, with caption items[j]. */
  ghost predicate PlacedAt(shapes: seq<Element>, captions: seq<Element?>, items: seq<string>, kind: Kind,
                           startX: real, startY: real, palette: seq<string>, group: Option<string>, j: nat)
    requires j < |shapes| == |captions| <= |items| && |palette| > 0
  {
    PlacedShape(shapes[j], captions[j], items[j], kind, SequentialX(startX, j), startY, Cycle(palette, j), group)
  }

  /** The first |shapes| items of a chain are placed. */
  ghost predicate ChainPlaced(shapes: seq<Element>, captions: seq<Element?>, items: seq<string>, kind: Kind,
                              startX: real, startY: real, palette: seq<string>, group: Option<string>)
  {
    && |shapes| == |captions| <= |items|
    && (|shapes| > 0 ==> |palette| > 0)
    && forall j :: 0 <= j < |shapes| ==> PlacedAt(shapes, captions, items, kind, startX, startY, palette, group, j)
  }

  /** Placing the next item keeps the chain placed. */
  lemma ChainPlacedStep(shapes: seq<Element>, captions: seq<Element?>, items: seq<string>, kind: Kind,
                        startX: real, startY: real, palette: seq<string>, group: Option<string>,
                        s: Element, c: Element?)
    requires ChainPlaced(shapes, captions, items, kind, startX, startY, palette, group)
    requires |shapes| < |items| && |palette| > 0
    requires PlacedShape(s, c, items[|shapes|], kind, SequentialX(startX, |shapes|), startY,
                         Cycle(palette, |shapes|), group)
    ensures ChainPlaced(shapes + [s], captions + [c], items, kind, startX, startY, palette, group)
  {
    var shapes', captions' := shapes + [s], captions + [c];
    forall j | 0 <= j < |shapes'|
      ensures PlacedAt(shapes', captions', items, kind, startX, startY, palette, group, j)
    {
      if j < |shapes| {
        assert shapes'[j] == shapes[j] && captions'[j] == captions[j];
        assert PlacedAt(shapes, captions, items, kind, startX, startY, palette, group, j);
      } else {
        assert shapes'[j] == s && captions'[j] == c;
      }
    }
  }

  /** The id of shape j has been handed out. */
  ghost predicate IdIssued(shapes: seq<Element>, issued: seq<string>, j: nat)
    requires j < |shapes|
  {
    shapes[j].base.id in issued
  }

  /** The state of a chain's first pass after |shapes| items: the shapes placed, the result
      so far listing them with their captions, their ids pairwise distinct and all issued. */
  ghost predicate ChainSoFar(shapes: seq<Element>, captions: seq<Element?>, acc: seq<Element?>,
                             items: seq<string>, kind: Kind, startX: real, startY: real,
                             palette: seq<string>, group: Option<string>, issued: seq<string>)
  {
    && ChainPlaced(shapes, captions, items, kind, startX, startY, palette, group)
    && acc == ShapesAndCaptions(shapes, captions)
    && DistinctIds(shapes)
    && forall j :: 0 <= j < |shapes| ==> IdIssued(shapes, issued, j)
  }

  /** A finished chain lists one element per item plus one per non-empty caption. */
  lemma ChainResultCount(shapes: seq<Element>, captions: seq<Element?>, items: seq<string>, kind: Kind,
                         startX: real, startY: real, palette: seq<string>, group: Option<string>)
    requires ChainPlaced(shapes, captions, items, kind, startX, startY, palette, group) && |shapes| == |items|
    ensures |ShapesAndCaptions(shapes, captions)| == |items| + CaptionCount(items)
  {
    forall j | 0 <= j < |items|
      ensures captions[j] != null <==> items[j] != ""
    {
      assert PlacedAt(shapes, captions, items, kind, startX, startY, palette, group, j);
    }
    ChainResultLength(shapes, captions, items);
  }

  /** Every arrow of a placed chain is a horizontal segment of one spacing, from the right
      middle of shape i to the left middle of shape i+1, bound to both by id. */
  lemma ChainArrowsStraight(shapes: seq<Element>, captions: seq<Element?>, items: seq<string>, kind: Kind,
                            startX: real, startY: real, palette: seq<string>, group: Option<string>,
                            arrows: seq<Element>)
    requires ChainPlaced(shapes, captions, items, kind, startX, startY, palette, group) && |shapes| == |items|
    requires ChainArrows(shapes, arrows, group)
    ensures forall i :: 0 <= i < |arrows| ==>
              && arrows[i].base.kind == Arrow && arrows[i].base.groupIds == GroupTag(group)
              && arrows[i].base.x == SequentialX(startX, i) + DefaultElementWidth
              && arrows[i].base.y == startY + DefaultElementHeight / 2.0
              && arrows[i].base.width == DefaultSpacingX && arrows[i].base.height == 0.0
              && arrows[i].extra == ArrowPart(Binding(shapes[i].base.id, 0, 1), Binding(shapes[i + 1].base.id, 0, 1),
                                              None, None, Some("arrow"),
                                              [Point(0.0, 0.0), Point(DefaultSpacingX, 0.0)])
  {
    forall i | 0 <= i < |arrows|
      ensures && arrows[i].base.kind == Arrow && arrows[i].base.groupIds == GroupTag(group)
              && arrows[i].base.x == SequentialX(startX, i) + DefaultElementWidth
              && arrows[i].base.y == startY + DefaultElementHeight / 2.0
              && arrows[i].base.width == DefaultSpacingX && arrows[i].base.height == 0.0
              && arrows[i].extra == ArrowPart(Binding(shapes[i].base.id, 0, 1), Binding(shapes[i + 1].base.id, 0, 1),
                                              None, None, Some("arrow"),
                                              [Point(0.0, 0.0), Point(DefaultSpacingX, 0.0)])
    {
      assert ArrowAt(shapes, arrows, i, group);
      assert PlacedAt(shapes, captions, items, kind, startX, startY, palette, group, i);
      assert PlacedAt(shapes, captions, items, kind, startX, startY, palette, group, i + 1);
      SequentialGap(startX, i);
    }
  }

  /** Once all n-1 arrows of a chain are drawn, shape i holds its caption's reference, then
      the arrow from shape i-1 (except the first), then the arrow to shape i+1 (except the last). */
  lemma ChainBoundRefs(shapes: seq<Element>, captions: seq<Element?>, arrows: seq<Element>)
    requires ChainBound(shapes, captions, arrows, |arrows|) && |arrows| == |shapes| - 1
    ensures forall i :: 0 <= i < |shapes| ==>
              shapes[i].boundElements ==
                TextRefOf(captions[i])
                + (if i > 0 then [BoundRef(Arrow, arrows[i - 1].base.id)] else [])
                + (if i < |shapes| - 1 then [BoundRef(Arrow, arrows[i].base.id)] else [])
  {
    forall i | 0 <= i < |shapes|
      ensures shapes[i].boundElements ==
                TextRefOf(captions[i])
                + (if i > 0 then [BoundRef(Arrow, arrows[i - 1].base.id)] else [])
                + (if i < |shapes| - 1 then [BoundRef(Arrow, arrows[i].base.id)] else [])
    {
      assert BoundAt(shapes, captions, arrows, i, |arrows|);
    }
  }
  /** The number of arrows in a list of elements (a None is not an arrow). */
  function ArrowCount(es: seq<Element?>): (n: nat)
    ensures n <= |es|
  {
    if es == [] then 0
    else
      var last := es[|es| - 1];
      ArrowCount(es[..|es| - 1]) + (if last != null && last.base.kind == Arrow then 1 else 0)
  }

  /** Counting arrows distributes over concatenation. */
  lemma {:induction false} ArrowCountAppend(a: seq<Element?>, b: seq<Element?>)
    ensures ArrowCount(a + b) == ArrowCount(a) + ArrowCount(b)
    decreases |b|
  {
    if b == [] {
      assert a + b == a;
    } else {
      var n := |b| - 1;
      assert (a + b)[..|a + b| - 1] == a + b[..n];
      ArrowCountAppend(a, b[..n]);
    }
  }

  /** A shape and its caption slot, neither of them an arrow, count no arrow. */
  lemma NoArrowInPair(x: Element, t: Element?)
    requires x.base.kind != Arrow && (t != null ==> t.base.kind != Arrow)
    ensures ArrowCount([x, t]) == 0
  {
    var pair: seq<Element?> := [x, t];
    assert pair[..1][..0] == [];
  }

  /** A list made only of arrows counts every entry. */
  lemma {:induction false} AllArrows(arrows: seq<Element>)
    requires forall j :: 0 <= j < |arrows| ==> arrows[j].base.kind == Arrow
    ensures ArrowCount(arrows) == |arrows|
  {
    if arrows != [] {
      AllArrows(arrows[..|arrows| - 1]);
    }
  }

  /** Shapes and captions that are not arrows contribute no arrow to the chain's result. */
  lemma {:induction false} NoArrowsAmongShapes(shapes: seq<Element>, captions: seq<Element?>)
    requires |shapes| == |captions|
    requires forall j :: 0 <= j < |shapes| ==> shapes[j].base.kind != Arrow
    requires forall j :: 0 <= j < |captions| && captions[j] != null ==> captions[j].base.kind != Arrow
    ensures ArrowCount(ShapesAndCaptions(shapes, captions)) == 0
  {
    if shapes != [] {
      var n := |shapes| - 1;
      NoArrowsAmongShapes(shapes[..n], captions[..n]);
      var shape: seq<Element?> := [shapes[n]];
      var tail: seq<Element?> := shape + (if captions[n] != null then [captions[n]] else []);
      assert shape[..0] == [];
      if captions[n] != null {
        var caption: seq<Element?> := [captions[n]];
        assert caption[..0] == [];
        ArrowCountAppend(shape, caption);
        assert tail == shape + caption;
      }
      assert ArrowCount(tail) == 0;
      ArrowCountAppend(ShapesAndCaptions(shapes[..n], captions[..n]), tail);
      assert ShapesAndCaptions(shapes, captions) == ShapesAndCaptions(shapes[..n], captions[..n]) + tail;
    }
  }

  /** The list create_sequential_layout returns holds exactly as many arrows as it drew:
      n - 1 for n placed shapes, none for a single shape. */
  lemma ChainArrowCount(shapes: seq<Element>, captions: seq<Element?>, items: seq<string>, kind: Kind,
                        startX: real, startY: real, palette: seq<string>, group: Option<string>,
                        arrows: seq<Element>)
    requires kind != Arrow
    requires ChainPlaced(shapes, captions, items, kind, startX, startY, palette, group) && |shapes| == |items|
    requires ChainArrows(shapes, arrows, group)
    ensures ArrowCount(ShapesAndCaptions(shapes, captions) + arrows) == |arrows|
  {
    forall j | 0 <= j < |shapes|
      ensures shapes[j].base.kind != Arrow && (captions[j] != null ==> captions[j].base.kind != Arrow)
    {
      assert PlacedAt(shapes, captions, items, kind, startX, startY, palette, group, j);
    }
    NoArrowsAmongShapes(shapes, captions);
    forall j | 0 <= j < |arrows|
      ensures arrows[j].base.kind == Arrow
    {
      assert ArrowAt(shapes, arrows, j, group);
    }
    AllArrows(arrows);
    ArrowCountAppend(ShapesAndCaptions(shapes, captions), arrows);
  }
}
