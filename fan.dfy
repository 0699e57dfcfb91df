/** The hub-and-spoke shape shared by the routing layout and the first half of the parallel
    layout: a hub shape and its caption in the element list, then for each name a rectangle and
    its caption appended after it, with an arrow from the hub to the rectangle; and the second
    half of the parallel layout, where every spoke gets an arrow into one output shape. */
module Fan {
  import opened Wrappers
  import opened Ids
  import opened Elements
  import opened Lookup
  import opened Layout

  /** The position of the first empty name, or |names| when none is empty: the spoke whose
      missing caption is the first None the arrow scan meets. */
  function FirstBlank(names: seq<string>): (i: nat)
    ensures i <= |names|
    ensures i < |names| ==> names[i] == ""
  {
    if names == [] then 0
    else if names[0] == "" then 0
    else 1 + FirstBlank(names[1..])
  }

  /** No name before the first empty one is empty. */
  lemma {:induction false} BeforeFirstBlank(names: seq<string>, j: nat)
    requires j < FirstBlank(names)
    ensures names[j] != ""
  {
    if j > 0 {
      BeforeFirstBlank(names[1..], j - 1);
    }
  }

  /** The id of entry j of es, if any, has been handed out. */
  ghost predicate IssuedAt(es: seq<Element?>, issued: seq<string>, j: nat)
    requires j < |es|
  {
    es[j] == null || es[j].base.id in issued
  }

  ghost predicate AllIssued(es: seq<Element?>, issued: seq<string>)
  {
    forall j :: 0 <= j < |es| ==> IssuedAt(es, issued, j)
  }

  /** Handing out more ids keeps every earlier id handed out. */
  lemma AllIssuedGrow(es: seq<Element?>, issued: seq<string>, more: seq<string>)
    requires AllIssued(es, issued)
    ensures AllIssued(es, issued + more)
  {
    forall j | 0 <= j < |es|
      ensures IssuedAt(es, issued + more, j)
    {
      assert IssuedAt(es, issued, j);
    }
  }

  /** Appending a new shape and its caption slot, whose ids were not yet handed out when the
      earlier ids were, keeps the ids of the run distinct and all handed out. */
  lemma RunAppend(es: seq<Element?>, x: Element, t: Element?, issued: seq<string>, issued': seq<string>)
    requires DistinctIds(es) && AllIssued(es, issued)
    requires x.base.id !in issued
    requires t != null ==> t.base.id !in issued && t.base.id != x.base.id
    requires issued' == issued + [x.base.id] + (if t != null then [t.base.id] else [])
    ensures DistinctIds(es + [x, t]) && AllIssued(es + [x, t], issued')
  {
    forall a | 0 <= a < |es| && es[a] != null
      ensures es[a].base.id != x.base.id
    {
      assert IssuedAt(es, issued, a);
    }
    DistinctIdsAppend(es, x);
    var es1 := es + [x];
    forall a | 0 <= a < |es1| && es1[a] != null
      ensures t != null ==> es1[a].base.id != t.base.id
    {
      if a < |es| {
        assert es1[a] == es[a];
        assert IssuedAt(es, issued, a);
      }
    }
    DistinctIdsAppend(es1, t);
    assert es1 + [t] == es + [x, t];
    forall j | 0 <= j < |es + [x, t]|
      ensures IssuedAt(es + [x, t], issued', j)
    {
      if j < |es| {
        assert IssuedAt(es, issued, j);
        assert (es + [x, t])[j] == es[j];
      }
    }
  }

  /** Appending a shape and its caption slot adds a None exactly when the caption is missing. */
  lemma NullInPair(es: seq<Element?>, x: Element, t: Element?)
    ensures null in es + [x, t] <==> null in es || t == null
  {
    if null in es + [x, t] && null !in es {
      var k :| 0 <= k < |es + [x, t]| && (es + [x, t])[k] == null;
      assert k == |es| + 1;
    }
  }

  /** One more shape and caption slot at the end of a list of pairs. */
  lemma PairsStep(shapes: seq<Element>, captions: seq<Element?>, s: Element, c: Element?)
    requires |shapes| == |captions|
    ensures Pairs(shapes + [s], captions + [c]) == Pairs(shapes, captions) + [s, c]
  {
    assert (shapes + [s])[..|shapes|] == shapes;
    assert (captions + [c])[..|captions|] == captions;
  }

  /** One more shape, caption slot and arrow at the end of a list of triples. */
  lemma TriplesStep(shapes: seq<Element>, captions: seq<Element?>, arrows: seq<Element>,
                    s: Element, c: Element?, a: Element)
    requires |shapes| == |captions| == |arrows|
    ensures Triples(shapes + [s], captions + [c], arrows + [a]) == Triples(shapes, captions, arrows) + [s, c, a]
  {
    assert (shapes + [s])[..|shapes|] == shapes;
    assert (captions + [c])[..|captions|] == captions;
    assert (arrows + [a])[..|arrows|] == arrows;
  }

  /** One more arrow at the end of an element's references. */
  lemma ArrowRefsStep(arrows: seq<Element>, a: Element)
    ensures ArrowRefs(arrows + [a]) == ArrowRefs(arrows) + [BoundRef(Arrow, a.base.id)]
  {
    assert (arrows + [a])[..|arrows|] == arrows;
  }

  /** Spoke j is a rectangle at positions[j], coloured from the palette cyclically, with caption names[j]. */
  ghost predicate SpokeAt(items: seq<Element>, texts: seq<Element?>, names: seq<string>, positions: seq<Point>,
                          palette: seq<string>, group: Option<string>, j: nat)
    requires j < |items| == |texts| <= |names| <= |positions| && |palette| > 0
  {
    PlacedShape(items[j], texts[j], names[j], Rectangle, positions[j].x, positions[j].y, Cycle(palette, j), group)
  }

  /** The first |items| spokes are placed. */
  ghost predicate FanPlaced(items: seq<Element>, texts: seq<Element?>, names: seq<string>, positions: seq<Point>,
                            palette: seq<string>, group: Option<string>)
  {
    && |items| == |texts| <= |names| <= |positions|
    && (|items| > 0 ==> |palette| > 0)
    && forall j :: 0 <= j < |items| ==> SpokeAt(items, texts, names, positions, palette, group, j)
  }

  /** Placing the next spoke keeps the spokes placed. */
  lemma FanPlacedStep(items: seq<Element>, texts: seq<Element?>, names: seq<string>, positions: seq<Point>,
                      palette: seq<string>, group: Option<string>, s: Element, c: Element?)
    requires FanPlaced(items, texts, names, positions, palette, group)
    requires |items| < |names| && |palette| > 0
    requires PlacedShape(s, c, names[|items|], Rectangle, positions[|items|].x, positions[|items|].y,
                         Cycle(palette, |items|), group)
    ensures FanPlaced(items + [s], texts + [c], names, positions, palette, group)
  {
    var items', texts' := items + [s], texts + [c];
    forall j | 0 <= j < |items'|
      ensures SpokeAt(items', texts', names, positions, palette, group, j)
    {
      if j < |items| {
        assert SpokeAt(items, texts, names, positions, palette, group, j);
        assert items'[j] == items[j] && texts'[j] == texts[j];
      }
    }
  }

  /** Arrow j runs from the hub to spoke j. */
  ghost predicate SpokeArrowAt(hub: Element, items: seq<Element>, arrows: seq<Element>, j: nat, group: Option<string>)
    requires j < |items| && j < |arrows|
  {
    DefaultArrow(arrows[j], hub, items[j], group)
  }

  ghost predicate FanArrows(hub: Element, items: seq<Element>, arrows: seq<Element>, group: Option<string>)
  {
    |arrows| == |items| && forall j :: 0 <= j < |arrows| ==> SpokeArrowAt(hub, items, arrows, j, group)
  }

  /** Drawing the arrow to the next spoke keeps every arrow running from the hub to its spoke. */
  lemma FanArrowsStep(hub: Element, items: seq<Element>, arrows: seq<Element>, s: Element, a: Element,
                      group: Option<string>)
    requires FanArrows(hub, items, arrows, group) && DefaultArrow(a, hub, s, group)
    ensures FanArrows(hub, items + [s], arrows + [a], group)
  {
    var items', arrows' := items + [s], arrows + [a];
    forall j | 0 <= j < |arrows'|
      ensures SpokeArrowAt(hub, items', arrows', j, group)
    {
      if j < |arrows| {
        assert SpokeArrowAt(hub, items, arrows, j, group);
      }
    }
  }

  /** Spoke j holds the reference to its caption, then the reference to its incoming arrow. */
  ghost predicate SpokeBoundAt(items: seq<Element>, texts: seq<Element?>, arrows: seq<Element>, j: nat)
    requires j < |items| == |texts| == |arrows|
    reads items[j]
  {
    items[j].boundElements == TextRefOf(texts[j]) + [BoundRef(Arrow, arrows[j].base.id)]
  }

  ghost predicate FanBound(items: seq<Element>, texts: seq<Element?>, arrows: seq<Element>)
    reads set j | 0 <= j < |items| :: items[j]
  {
    |items| == |texts| == |arrows| && forall j :: 0 <= j < |items| ==> SpokeBoundAt(items, texts, arrows, j)
  }

  /** The hub-and-spoke state after |items| spokes: every arrow runs from the hub to its spoke,
      the hub holds its caption's reference and then one reference per arrow in order, and
      each spoke holds its caption's reference and its arrow's. */
  ghost predicate FanLinks(hub: Element, hubText: Element?, items: seq<Element>, texts: seq<Element?>,
                           arrows: seq<Element>, group: Option<string>)
    reads {hub} + set j | 0 <= j < |items| :: items[j]
  {
    && FanArrows(hub, items, arrows, group)
    && hub.boundElements == TextRefOf(hubText) + ArrowRefs(arrows)
    && FanBound(items, texts, arrows)
  }

  /** The element list after |items| spokes: the earlier entries, the hub and its caption slot,
      then each spoke and its caption slot, all of whose ids are distinct and handed out. */
  ghost predicate FanRun(prefix: seq<Element?>, hub: Element, hubText: Element?, items: seq<Element>,
                         texts: seq<Element?>, elements: seq<Element?>, issued: seq<string>)
  {
    && |items| == |texts|
    && elements == prefix + [hub, hubText] + Pairs(items, texts)
    && DistinctIds([hub, hubText] + Pairs(items, texts))
    && AllIssued([hub, hubText] + Pairs(items, texts), issued)
  }

  /** A hub and its caption slot, whose ids are newly handed out, appended to the list start a
      well-formed run with no spokes yet. */
  lemma FanStart(prefix: seq<Element?>, hub: Element, hubText: Element?, issued: seq<string>, issued': seq<string>)
    requires hub.base.id !in issued
    requires hubText != null ==> hubText.base.id !in issued + [hub.base.id]
    requires issued' == issued + [hub.base.id] + (if hubText != null then [hubText.base.id] else [])
    ensures FanRun(prefix, hub, hubText, [], [], prefix + [hub, hubText], issued')
    ensures null in prefix + [hub, hubText] <==> null in prefix || hubText == null
  {
    RunAppend([], hub, hubText, issued, issued');
    assert [] + [hub, hubText] == [hub, hubText];
    assert Pairs([], []) == [];
    assert [hub, hubText] + Pairs([], []) == [hub, hubText];
    NullInPair(prefix, hub, hubText);
  }

  /** Appending the next placed spoke and its caption slot, whose ids are newly handed out,
      keeps the run well formed and the spokes placed; it adds a None exactly when the caption
      is missing. */
  lemma SpokeAppend(prefix: seq<Element?>, hub: Element, hubText: Element?, items: seq<Element>,
                    texts: seq<Element?>, names: seq<string>, positions: seq<Point>, palette: seq<string>,
                    group: Option<string>, elements: seq<Element?>, issued: seq<string>,
                    item: Element, text: Element?, issued': seq<string>)
    requires FanRun(prefix, hub, hubText, items, texts, elements, issued)
    requires FanPlaced(items, texts, names, positions, palette, group)
    requires |items| < |names| && |palette| > 0
    requires PlacedShape(item, text, names[|items|], Rectangle, positions[|items|].x, positions[|items|].y,
                         Cycle(palette, |items|), group)
    requires item.base.id !in issued
    requires text != null ==> text.base.id !in issued + [item.base.id]
    requires issued' == issued + [item.base.id] + (if text != null then [text.base.id] else [])
    ensures FanRun(prefix, hub, hubText, items + [item], texts + [text], elements + [item, text], issued')
    ensures FanPlaced(items + [item], texts + [text], names, positions, palette, group)
    ensures null in elements + [item, text] <==> null in elements || text == null
  {
    var run := [hub, hubText] + Pairs(items, texts);
    NullInPair(elements, item, text);
    RunAppend(run, item, text, issued, issued');
    PairsStep(items, texts, item, text);
    assert run + [item, text] == [hub, hubText] + Pairs(items + [item], texts + [text]);
    FanPlacedStep(items, texts, names, positions, palette, group, item, text);
  }

  /** Spoke j of the list [hub, hubText] + Pairs(items, texts) sits at position 2 + 2j. */
  lemma RunIndex(hub: Element, hubText: Element?, items: seq<Element>, texts: seq<Element?>, j: nat)
    requires |items| == |texts| && j < |items|
    ensures ([hub, hubText] + Pairs(items, texts))[2 + 2 * j] == items[j]
    ensures ([hub, hubText] + Pairs(items, texts))[3 + 2 * j] == texts[j]
  {
    PairsAt(items, texts, j);
  }

  /** In the list after a spoke is placed, the arrow scan from the hub to that spoke fails
      exactly when the list holds a None, and otherwise finds exactly the hub and the spoke. */
  lemma SpokeScan(prefix: seq<Element?>, hub: Element, hubText: Element?, items: seq<Element>,
                  texts: seq<Element?>, item: Element, text: Element?, elements: seq<Element?>)
    requires |items| == |texts|
    requires elements == prefix + [hub, hubText] + Pairs(items + [item], texts + [text])
    requires DistinctIds([hub, hubText] + Pairs(items + [item], texts + [text]))
    ensures null in elements ==> Scan(elements, hub.base.id, item.base.id) == Crash
                                 && Targets(elements, hub.base.id, item.base.id) == {}
    ensures null !in elements ==> Scan(elements, hub.base.id, item.base.id) == Endpoints(hub, item)
                                  && Targets(elements, hub.base.id, item.base.id) == {hub, item}
  {
    var run := [hub, hubText] + Pairs(items + [item], texts + [text]);
    assert elements == prefix + run;
    RunIndex(hub, hubText, items + [item], texts + [text], |items|);
    if null in elements {
      ScanSpec(elements, hub.base.id, item.base.id);
    } else {
      assert null !in prefix && null !in run by {
        forall m | 0 <= m < |prefix| ensures prefix[m] == elements[m] { }
        forall m | 0 <= m < |run| ensures run[m] == elements[|prefix| + m] { }
      }
      ScanInDistinct(prefix, run, 0, 2 + 2 * |items|);
    }
  }

  /** The hub, every earlier spoke and the new spoke carry pairwise different ids. */
  lemma SpokeApart(hub: Element, hubText: Element?, items: seq<Element>, texts: seq<Element?>,
                   item: Element, text: Element?, j: nat)
    requires |items| == |texts| && j < |items|
    requires DistinctIds([hub, hubText] + Pairs(items + [item], texts + [text]))
    ensures items[j].base.id != hub.base.id && items[j].base.id != item.base.id
  {
    var run := [hub, hubText] + Pairs(items + [item], texts + [text]);
    RunIndex(hub, hubText, items + [item], texts + [text], j);
    RunIndex(hub, hubText, items + [item], texts + [text], |items|);
    assert Apart(run, 0, 2 + 2 * j) && Apart(run, 2 + 2 * j, 2 + 2 * |items|);
  }

  /** Arrow j of the second half runs from spoke j into the output. */
  ghost predicate IntoAt(items: seq<Element>, output: Element, outs: seq<Element>, j: nat, group: Option<string>)
    requires j < |items| && j < |outs|
  {
    DefaultArrow(outs[j], items[j], output, group)
  }

  ghost predicate FanInArrows(items: seq<Element>, output: Element, outs: seq<Element>, group: Option<string>)
  {
    |outs| <= |items| && forall j :: 0 <= j < |outs| ==> IntoAt(items, output, outs, j, group)
  }

  /** Drawing the next arrow into the output keeps every such arrow running from its spoke. */
  lemma FanInArrowsStep(items: seq<Element>, output: Element, outs: seq<Element>, a: Element, group: Option<string>)
    requires FanInArrows(items, output, outs, group) && |outs| < |items|
    requires DefaultArrow(a, items[|outs|], output, group)
    ensures FanInArrows(items, output, outs + [a], group)
  {
    var outs' := outs + [a];
    forall j | 0 <= j < |outs'|
      ensures IntoAt(items, output, outs', j, group)
    {
      if j < |outs| {
        assert IntoAt(items, output, outs, j, group);
      }
    }
  }

  /** Spoke j holds its caption's reference, its incoming arrow's, and — once drawn — its
      outgoing arrow's. */
  ghost predicate ThroughAt(items: seq<Element>, texts: seq<Element?>, ins: seq<Element>, outs: seq<Element>,
                            j: nat)
    requires j < |items| == |texts| == |ins| && |outs| <= |items|
    reads items[j]
  {
    items[j].boundElements ==
      TextRefOf(texts[j]) + [BoundRef(Arrow, ins[j].base.id)]
      + (if j < |outs| then [BoundRef(Arrow, outs[j].base.id)] else [])
  }

  ghost predicate FanThrough(items: seq<Element>, texts: seq<Element?>, ins: seq<Element>, outs: seq<Element>)
    reads set j | 0 <= j < |items| :: items[j]
  {
    && |items| == |texts| == |ins| && |outs| <= |items|
    && forall j :: 0 <= j < |items| ==> ThroughAt(items, texts, ins, outs, j)
  }

  /** Before any arrow into the output, each spoke holds exactly its caption's and its incoming arrow's references. */
  lemma FanThroughStart(items: seq<Element>, texts: seq<Element?>, ins: seq<Element>)
    requires FanBound(items, texts, ins)
    ensures FanThrough(items, texts, ins, [])
  {
    forall j | 0 <= j < |items|
      ensures ThroughAt(items, texts, ins, [], j)
    {
      assert SpokeBoundAt(items, texts, ins, j);
    }
  }

  /** When spoke k gains the reference of the next arrow into the output, and only it, every
      spoke holds the references of one more outgoing arrow. */
  lemma ThroughAtStep(items: seq<Element>, texts: seq<Element?>, ins: seq<Element>, outs: seq<Element>,
                      a: Element, j: nat, before: seq<BoundRef>)
    requires j < |items| == |texts| == |ins| && |outs| < |items|
    requires before == TextRefOf(texts[j]) + [BoundRef(Arrow, ins[j].base.id)]
                       + (if j < |outs| then [BoundRef(Arrow, outs[j].base.id)] else [])
    requires items[j].boundElements == before + (if j == |outs| then [BoundRef(Arrow, a.base.id)] else [])
    ensures ThroughAt(items, texts, ins, outs + [a], j)
  {
  }

  /** In the parallel layout's run [input, itext] + Pairs(items, texts) + [output, otext], the
      input sits first, spoke j at 2 + 2j, and the output second to last. */
  lemma SinkIndex(input: Element, itext: Element?, items: seq<Element>, texts: seq<Element?>,
                  output: Element, otext: Element?, j: nat)
    requires |items| == |texts| && j < |items|
    ensures var run := [input, itext] + Pairs(items, texts) + [output, otext];
            && |run| == 2 * |items| + 4
            && run[0] == input && run[2 + 2 * j] == items[j] && run[|run| - 2] == output
  {
    RunIndex(input, itext, items, texts, j);
  }

  /** The arrow scan from spoke k into the output fails exactly when the list holds a None,
      and otherwise finds exactly spoke k and the output. */
  lemma SinkScan(prefix: seq<Element?>, input: Element, itext: Element?, items: seq<Element>,
                 texts: seq<Element?>, output: Element, otext: Element?, k: nat, elements: seq<Element?>)
    requires |items| == |texts| && k < |items|
    requires elements == prefix + [input, itext] + Pairs(items, texts) + [output, otext]
    requires DistinctIds([input, itext] + Pairs(items, texts) + [output, otext])
    ensures null in elements ==> Scan(elements, items[k].base.id, output.base.id) == Crash
                                 && Targets(elements, items[k].base.id, output.base.id) == {}
    ensures null !in elements ==> Scan(elements, items[k].base.id, output.base.id) == Endpoints(items[k], output)
                                  && Targets(elements, items[k].base.id, output.base.id) == {items[k], output}
  {
    var run := [input, itext] + Pairs(items, texts) + [output, otext];
    assert elements == prefix + run;
    SinkIndex(input, itext, items, texts, output, otext, k);
    if null in elements {
      ScanSpec(elements, items[k].base.id, output.base.id);
    } else {
      assert null !in prefix && null !in run by {
        forall m | 0 <= m < |prefix| ensures prefix[m] == elements[m] { }
        forall m | 0 <= m < |run| ensures run[m] == elements[|prefix| + m] { }
      }
      ScanInDistinct(prefix, run, 2 + 2 * k, |run| - 2);
    }
  }

  /** The input, the output and every spoke of the parallel layout's run are different elements. */
  lemma SinkApart(input: Element, itext: Element?, items: seq<Element>, texts: seq<Element?>,
                  output: Element, otext: Element?, j: nat, k: nat)
    requires |items| == |texts| && j < |items| && k < |items|
    requires DistinctIds([input, itext] + Pairs(items, texts) + [output, otext])
    ensures items[j] != output && input != output && input != items[j]
    ensures j != k ==> items[j] != items[k]
  {
    var run := [input, itext] + Pairs(items, texts) + [output, otext];
    SinkIndex(input, itext, items, texts, output, otext, j);
    SinkIndex(input, itext, items, texts, output, otext, k);
    assert Apart(run, 0, 2 + 2 * j) && Apart(run, 0, |run| - 2) && Apart(run, 2 + 2 * j, |run| - 2);
    if j < k {
      assert Apart(run, 2 + 2 * j, 2 + 2 * k);
    } else if k < j {
      assert Apart(run, 2 + 2 * k, 2 + 2 * j);
    }
  }
  /** Spokes and captions that are not arrows leave exactly the arrows of the triples. */
  lemma {:induction false} TriplesArrowCount(items: seq<Element>, texts: seq<Element?>, arrows: seq<Element>)
    requires |items| == |texts| == |arrows|
    requires forall j :: 0 <= j < |items| ==> items[j].base.kind != Arrow
    requires forall j :: 0 <= j < |texts| && texts[j] != null ==> texts[j].base.kind != Arrow
    requires forall j :: 0 <= j < |arrows| ==> arrows[j].base.kind == Arrow
    ensures ArrowCount(Triples(items, texts, arrows)) == |arrows|
  {
    if items != [] {
      var n := |items| - 1;
      TriplesArrowCount(items[..n], texts[..n], arrows[..n]);
      NoArrowInPair(items[n], texts[n]);
      var last: seq<Element?> := [items[n], texts[n], arrows[n]];
      assert last[..2] == [items[n], texts[n]];
      assert ArrowCount(last) == 1;
      ArrowCountAppend(Triples(items[..n], texts[..n], arrows[..n]), last);
    }
  }

  /** The spokes of a placed fan are rectangles with text captions, and its arrows are arrows. */
  lemma FanKinds(hub: Element, items: seq<Element>, texts: seq<Element?>, arrows: seq<Element>,
                 names: seq<string>, positions: seq<Point>, palette: seq<string>, group: Option<string>)
    requires FanPlaced(items, texts, names, positions, palette, group) && FanArrows(hub, items, arrows, group)
    ensures forall j :: 0 <= j < |items| ==> items[j].base.kind == Rectangle
    ensures forall j :: 0 <= j < |texts| && texts[j] != null ==> texts[j].base.kind == Text
    ensures forall j :: 0 <= j < |arrows| ==> arrows[j].base.kind == Arrow
    ensures forall j :: 0 <= j < |arrows| ==>
              && arrows[j].extra.ArrowPart?
              && arrows[j].extra.startBinding.elementId == hub.base.id
              && arrows[j].extra.endBinding.elementId == items[j].base.id
  {
    forall j | 0 <= j < |items|
      ensures items[j].base.kind == Rectangle && (texts[j] != null ==> texts[j].base.kind == Text)
    {
      assert SpokeAt(items, texts, names, positions, palette, group, j);
    }
    forall j | 0 <= j < |arrows|
      ensures arrows[j].base.kind == Arrow && arrows[j].extra.ArrowPart?
      ensures arrows[j].extra.startBinding.elementId == hub.base.id
      ensures arrows[j].extra.endBinding.elementId == items[j].base.id
    {
      assert SpokeArrowAt(hub, items, arrows, j, group);
    }
  }

  /** The arrows into the output are arrows, each from its own spoke to the output. */
  lemma IntoKinds(items: seq<Element>, output: Element, outs: seq<Element>, group: Option<string>)
    requires FanInArrows(items, output, outs, group)
    ensures ArrowCount(outs) == |outs|
    ensures forall j :: 0 <= j < |outs| ==>
              && outs[j].extra.ArrowPart?
              && outs[j].extra.startBinding.elementId == items[j].base.id
              && outs[j].extra.endBinding.elementId == output.base.id
  {
    forall j | 0 <= j < |outs|
      ensures outs[j].base.kind == Arrow && outs[j].extra.ArrowPart?
      ensures outs[j].extra.startBinding.elementId == items[j].base.id
      ensures outs[j].extra.endBinding.elementId == output.base.id
    {
      assert IntoAt(items, output, outs, j, group);
    }
    AllArrows(outs);
  }

  /** The list create_routing_layout returns holds exactly one arrow per destination, and every
      one of them starts at the router and ends at its own destination. */
  lemma RoutingArrows(router: Element, routerText: Element?, dests: seq<Element>, texts: seq<Element?>,
                      arrows: seq<Element>, destinations: seq<string>, positions: seq<Point>,
                      palette: seq<string>, group: Option<string>)
    requires router.base.kind == Rectangle && (routerText != null ==> routerText.base.kind == Text)
    requires FanPlaced(dests, texts, destinations, positions, palette, group)
    requires FanArrows(router, dests, arrows, group)
    ensures ArrowCount([router, routerText] + Triples(dests, texts, arrows)) == |dests|
    ensures forall j :: 0 <= j < |arrows| ==>
              && arrows[j].extra.ArrowPart?
              && arrows[j].extra.startBinding.elementId == router.base.id
              && arrows[j].extra.endBinding.elementId == dests[j].base.id
  {
    FanKinds(router, dests, texts, arrows, destinations, positions, palette, group);
    TriplesArrowCount(dests, texts, arrows);
    NoArrowInPair(router, routerText);
    ArrowCountAppend([router, routerText], Triples(dests, texts, arrows));
  }

  /** The list create_parallel_layout returns holds exactly 2m arrows for m items: m from the
      input to each item, then m from each item to the output. */
  lemma ParallelArrows(input: Element, inputText: Element?, items: seq<Element>, texts: seq<Element?>,
                       ins: seq<Element>, output: Element, outputText: Element?, outs: seq<Element>,
                       names: seq<string>, positions: seq<Point>, palette: seq<string>, group: Option<string>)
    requires input.base.kind == Ellipse && (inputText != null ==> inputText.base.kind == Text)
    requires output.base.kind == Ellipse && (outputText != null ==> outputText.base.kind == Text)
    requires FanPlaced(items, texts, names, positions, palette, group)
    requires FanArrows(input, items, ins, group)
    requires FanInArrows(items, output, outs, group) && |outs| == |items|
    ensures ArrowCount([input, inputText] + Triples(items, texts, ins) + [output, outputText] + outs)
            == 2 * |items|
    ensures forall j :: 0 <= j < |outs| ==>
              && outs[j].extra.ArrowPart?
              && outs[j].extra.startBinding.elementId == items[j].base.id
              && outs[j].extra.endBinding.elementId == output.base.id
  {
    FanKinds(input, items, texts, ins, names, positions, palette, group);
    TriplesArrowCount(items, texts, ins);
    IntoKinds(items, output, outs, group);
    NoArrowInPair(input, inputText);
    NoArrowInPair(output, outputText);
    var fan := [input, inputText] + Triples(items, texts, ins);
    ArrowCountAppend([input, inputText], Triples(items, texts, ins));
    ArrowCountAppend(fan, [output, outputText]);
    ArrowCountAppend(fan + [output, outputText], outs);
  }
}
