/** The diagram builder: an element list, the element and group counters, the active
    group, the factories that build element records, the arrow binder and the three
    canned layouts. */
module Agent {
  import opened Wrappers
  import opened Ids
  import opened Elements
  import opened Lookup
  import opened Layout
  import opened Fan
  import opened Keywords

  /** The record of a new shape: the base fields with the given background and the kind's roundness. */
  function ShapeRecord(kind: Kind, x: real, y: real, width: real, height: real, id: string,
                       counter: nat, group: Option<string>, color: string): (r: Base)
    ensures r.backgroundColor == color && r.roundness == Some(ShapeRoundness(kind))
    ensures r.(backgroundColor := Transparent, roundness := None) == BaseRecord(kind, x, y, width, height, id, counter, group)
  {
    BaseRecord(kind, x, y, width, height, id, counter, group)
      .(backgroundColor := color, roundness := Some(ShapeRoundness(kind)))
  }

  /** The editor settings written into every document ("appState"); the start arrowhead is JSON null. */
  datatype AppState = AppState(
    gridSize: int, viewBackgroundColor: string,
    currentItemFontFamily: int, currentItemFontSize: int,
    currentItemStrokeColor: string, currentItemBackgroundColor: string,
    currentItemFillStyle: string, currentItemStrokeWidth: int, currentItemStrokeStyle: string,
    currentItemRoughness: int, currentItemOpacity: int, currentItemTextAlign: string,
    currentItemStartArrowhead: Option<string>, currentItemEndArrowhead: Option<string>)

  /** The fixed settings of every generated document. */
  const DocumentSettings: AppState :=
    AppState(20, "#ffffff", 5, DefaultTextSize, DefaultStroke, Transparent, "solid", 2, "solid",
             1, 100, "left", None, Some("arrow"))

  /** An Excalidraw document: the "type", "version" and "source" header, the element list,
      the settings and the (always empty) map of embedded files. */
  datatype Document = Document(
    kind: string, version: int, source: string,
    elements: seq<Element?>, appState: AppState, files: map<string, string>)

  /** A chain as create_sequential_layout draws it at its defaults: rectangles for the labels
      at (50, 50), (320, 50), ..., all in the LLM colour, each with its caption inside, the
      n-1 arrows linking consecutive shapes, and every shape's bound references complete. */
  ghost predicate ChainDrawn(labels: seq<string>, shapes: seq<Element>, captions: seq<Element?>,
                             arrows: seq<Element>, result: seq<Element?>, group: Option<string>)
    reads set j | 0 <= j < |shapes| :: shapes[j]
  {
    && |shapes| == |captions| == |labels| && |arrows| == (if |labels| == 0 then 0 else |labels| - 1)
    && result == ShapesAndCaptions(shapes, captions) + arrows
    && ChainPlaced(shapes, captions, labels, Rectangle, 50.0, 50.0, [LlmColor], group)
    && ChainArrows(shapes, arrows, group)
    && ChainBound(shapes, captions, arrows, |arrows|)
  }

  /** A hub and spokes as create_routing_layout draws them at its defaults: the router
      rectangle at (50, 150) in the code colour, destination i on the circle around it in the
      LLM colour, one arrow from the router to each destination, all references complete. */
  ghost predicate RoutingDrawn(routerName: string, destinations: seq<string>, unit: (nat, nat) -> Point,
                               router: Element, routerText: Element?, dests: seq<Element>,
                               texts: seq<Element?>, arrows: seq<Element>, result: seq<Element?>,
                               group: Option<string>)
    reads {router} + set j | 0 <= j < |dests| :: dests[j]
  {
    && PlacedShape(router, routerText, routerName, Rectangle, 50.0, 150.0, CodeColor, group)
    && |dests| == |texts| == |arrows| == |destinations|
    && result == [router, routerText] + Triples(dests, texts, arrows)
    && FanPlaced(dests, texts, destinations, RoutingSpokes(50.0, 150.0, unit, |destinations|), [LlmColor], group)
    && FanLinks(router, routerText, dests, texts, arrows, group)
  }

  /** A fan-out and fan-in as create_parallel_layout draws them at its defaults: the input
      ellipse at (50, 300), item i at (350, 300 + (i - m/2) * 100) in the LLM and code colours
      alternately, the output ellipse at (650, 300), an arrow from the input to each item and
      from each item to the output, all references complete. */
  ghost predicate ParallelDrawn(inputName: string, names: seq<string>, outputName: string,
                                input: Element, inputText: Element?, items: seq<Element>,
                                texts: seq<Element?>, ins: seq<Element>, output: Element?,
                                outputText: Element?, outs: seq<Element>, result: seq<Element?>,
                                group: Option<string>)
    reads {input, output} + set j | 0 <= j < |items| :: items[j]
  {
    && output != null
    && input.boundElements == TextRefOf(inputText) + ArrowRefs(ins)
    && output.boundElements == TextRefOf(outputText) + ArrowRefs(outs)
    && FanThrough(items, texts, ins, outs)
    && PlacedShape(input, inputText, inputName, Ellipse, 50.0, 300.0, Transparent, group)
    && PlacedShape(output, outputText, outputName, Ellipse, ParallelOutputX(50.0), 300.0, Transparent, group)
    && |items| == |texts| == |ins| == |outs| == |names|
    && result == [input, inputText] + Triples(items, texts, ins) + [output, outputText] + outs
    && FanPlaced(items, texts, names, ParallelSpokes(50.0, 300.0, |names|), [LlmColor, CodeColor], group)
    && FanArrows(input, items, ins, group)
    && FanInArrows(items, output, outs, group)
  }

  /** The labels of the dispatcher's four fixed diagrams. */
  const StepLabels: seq<string> := ["Step 1", "Step 2", "Step 3", "Step 4"]
  const RouterLabel: string := "Router"
  const DestinationLabels: seq<string> := ["LLM1", "LLM2", "LLM3"]
  const InputLabel: string := "Input"
  const ProcessLabels: seq<string> := ["Process A", "Process B", "Process C"]
  const OutputLabel: string := "Output"
  const FallbackLabels: seq<string> := ["Input", "Process", "Output"]

  /** The objects of a drawn diagram, as the layout that drew it returns them. */
  datatype Drawing =
    | ChainDrawing(shapes: seq<Element>, captions: seq<Element?>, arrows: seq<Element>)
    | HubDrawing(router: Element, routerText: Element?, dests: seq<Element>, destTexts: seq<Element?>,
                 spokeArrows: seq<Element>)
    | FanDrawing(input: Element, inputText: Element?, items: seq<Element>, itemTexts: seq<Element?>,
                 ins: seq<Element>, output: Element?, outputText: Element?, outs: seq<Element>)
  {
    /** The elements whose references the diagram's description reads. */
    function Objects(): set<object?>
    {
      match this
      case ChainDrawing(shapes, _, _) => set j | 0 <= j < |shapes| :: shapes[j]
      case HubDrawing(router, _, dests, _, _) => {router} + set j | 0 <= j < |dests| :: dests[j]
      case FanDrawing(input, _, items, _, _, output, _, _) => {input, output} + set j | 0 <= j < |items| :: items[j]
    }
  }

  /** The element list the dispatcher leaves behind, `before` being the list it started from:
      a chain leaves the list as it was, or with its first two shapes appended when the first
      arrow fails; the routing layout appends the router and each destination with their
      caption slots (only the first destination when it fails); the parallel layout appends the
      input, the items and the output with their caption slots (stopping after the first item
      when it fails). */
  ghost predicate Leaves(pattern: Pattern, d: Drawing, ok: bool, before: seq<Element?>, after: seq<Element?>)
  {
    match pattern
    case Sequential => ChainLeaves(d, ok, before, after)
    case Fallback => ChainLeaves(d, ok, before, after)
    case Routing =>
      && d.HubDrawing? && |d.dests| == |d.destTexts| && (ok || |d.dests| == 1)
      && after == before + [d.router, d.routerText] + Pairs(d.dests, d.destTexts)
    case Parallel =>
      && d.FanDrawing? && |d.items| == |d.itemTexts|
      && if ok then after == before + [d.input, d.inputText] + Pairs(d.items, d.itemTexts) + [d.output, d.outputText]
         else |d.items| == 1 && after == before + [d.input, d.inputText] + Pairs(d.items, d.itemTexts)
  }

  /** The element list a default chain leaves behind. */
  ghost predicate ChainLeaves(d: Drawing, ok: bool, before: seq<Element?>, after: seq<Element?>)
  {
    && d.ChainDrawing?
    && if ok then after == before else |d.shapes| >= 2 && after == before + [d.shapes[0], d.shapes[1]]
  }

  /** The fixed diagram the dispatcher draws for each pattern, with `result` the list returned. */
  ghost predicate Draws(pattern: Pattern, d: Drawing, unit: (nat, nat) -> Point, result: seq<Element?>,
                        group: Option<string>)
    reads d.Objects()
  {
    match pattern
    case Sequential => d.ChainDrawing? && ChainDrawn(StepLabels, d.shapes, d.captions, d.arrows, result, group)
    case Routing =>
      && d.HubDrawing?
      && RoutingDrawn(RouterLabel, DestinationLabels, unit, d.router, d.routerText, d.dests, d.destTexts,
                      d.spokeArrows, result, group)
    case Parallel =>
      && d.FanDrawing?
      && ParallelDrawn(InputLabel, ProcessLabels, OutputLabel, d.input, d.inputText, d.items, d.itemTexts,
                       d.ins, d.output, d.outputText, d.outs, result, group)
    case Fallback => d.ChainDrawing? && ChainDrawn(FallbackLabels, d.shapes, d.captions, d.arrows, result, group)
  }

  class ExcalidrawAgent {
    var elements: seq<Element?>
    var elementCounter: nat
    var groupCounter: nat
    var currentGroupId: Option<string>
    /** Ids handed out by GenerateId since the builder was made or last cleared, in order. */
    ghost var issued: seq<string>

    /** The k-th issued id was generated from counter value k + 1, so all issued ids differ. */
    ghost predicate Valid()
      reads this
    {
      && |issued| == elementCounter
      && forall k :: 0 <= k < |issued| ==> IdNumber(issued[k]) == k + 1
    }

    constructor ()
      ensures Valid()
      ensures elements == [] && elementCounter == 0 && groupCounter == 0 && currentGroupId == None
    {
      elements := [];
      elementCounter := 0;
      groupCounter := 0;
      currentGroupId := None;
      issued := [];
    }

    /** _generate_id: advance the element counter and return "prefix-counter", an id
        never issued before. */
    method GenerateId(prefix: string) returns (id: string)
      requires Valid()
      modifies this
      ensures Valid()
      ensures elementCounter == old(elementCounter) + 1
      ensures id == FormatId(prefix, elementCounter) && IdNumber(id) == elementCounter
      ensures id !in old(issued) && issued == old(issued) + [id]
      ensures elements == old(elements) && groupCounter == old(groupCounter)
      ensures currentGroupId == old(currentGroupId)
    {
      elementCounter := elementCounter + 1;
      id := FormatId(prefix, elementCounter);
      IdNumberOfFormatId(prefix, elementCounter);
      issued := issued + [id];
    }

    /** _generate_group_id: advance the group counter and return "group-counter". */
    method GenerateGroupId() returns (id: string)
      modifies this
      ensures groupCounter == old(groupCounter) + 1
      ensures id == FormatId("group", groupCounter)
      ensures elements == old(elements) && elementCounter == old(elementCounter)
      ensures currentGroupId == old(currentGroupId) && issued == old(issued)
    {
      groupCounter := groupCounter + 1;
      id := FormatId("group", groupCounter);
    }

    /** start_group: make a new group active; every element created until the next
        start_group or end_group is tagged with it. */
    method StartGroup(name: string) returns (id: string)
      requires Valid()
      modifies this
      ensures Valid()
      ensures groupCounter == old(groupCounter) + 1
      ensures id == GroupId(name, groupCounter) && IdNumber(id) == groupCounter
      ensures currentGroupId == Some(id) && GroupTag(currentGroupId) == [id]
      ensures elements == old(elements) && elementCounter == old(elementCounter) && issued == old(issued)
    {
      id := GenerateGroupId();
      if name != "" {
        id := name + "-" + id;
      }
      assert id == GroupId(name, groupCounter);
      GroupIdNumber(name, groupCounter);
      currentGroupId := Some(id);
    }

    /** end_group: no group is active any more; new elements get no group tag. */
    method EndGroup()
      modifies this
      ensures currentGroupId == None && GroupTag(currentGroupId) == []
      ensures elements == old(elements) && elementCounter == old(elementCounter)
      ensures groupCounter == old(groupCounter) && issued == old(issued)
    {
      currentGroupId := None;
    }

    /** add_element: append an element (or a None) to the document's list. */
    method AddElement(e: Element?)
      modifies this
      ensures elements == old(elements) + [e]
      ensures elementCounter == old(elementCounter) && groupCounter == old(groupCounter)
      ensures currentGroupId == old(currentGroupId) && issued == old(issued)
    {
      elements := elements + [e];
    }

    /** generate_excalidraw_json: the document holding the builder's own element list, in
        order and with the very element objects (None entries included), fixed settings and
        no files. The title is accepted and not used. */
    function GenerateExcalidrawJson(title: string): (d: Document)
      reads this
      ensures d.kind == "excalidraw" && d.version == 2
      ensures d.elements == elements
      ensures d.source == "https://github.com/your-username/excalidraw-agent"
      ensures d.appState == DocumentSettings && d.files == map[]
    {
      Document("excalidraw", 2, "https://github.com/your-username/excalidraw-agent",
               elements, DocumentSettings, map[])
    }

    /** clear: empty the list and reset both counters and the active group. */
    method Clear()
      modifies this
      ensures Valid()
      ensures elements == [] && elementCounter == 0 && groupCounter == 0 && currentGroupId == None
    {
      elements := [];
      elementCounter := 0;
      groupCounter := 0;
      currentGroupId := None;
      issued := [];
    }

    /** _create_base_element: the common fields of a new element, with a generated
        "element-n" id when none is given, tagged with the active group. */
    method CreateBaseElement(kind: Kind, x: real, y: real, width: real, height: real,
                             elementId: Option<string>) returns (b: Base)
      requires Valid()
      modifies this
      ensures Valid()
      ensures elementCounter == old(elementCounter) + (if elementId.None? then 1 else 0)
      ensures elementId.Some? ==> b.id == elementId.value && issued == old(issued)
      ensures elementId.None? ==> b.id == FormatId("element", elementCounter) && issued == old(issued) + [b.id]
      ensures b == BaseRecord(kind, x, y, width, height, b.id, elementCounter, currentGroupId)
      ensures b.groupIds == GroupTag(currentGroupId)
      ensures elements == old(elements) && groupCounter == old(groupCounter)
      ensures currentGroupId == old(currentGroupId)
    {
      var id: string;
      if elementId.None? {
        id := GenerateId("element");
      } else {
        id := elementId.value;
      }
      b := BaseRecord(kind, x, y, width, height, id, elementCounter, currentGroupId);
    }

    /** create_text_element: a text element sized from its length and font size,
        centred in its container when it has one, otherwise aligned left/top. */
    method CreateTextElement(text: string, x: real, y: real, containerId: Option<string>,
                             fontSize: Option<int>) returns (t: Element)
      requires Valid()
      modifies this
      ensures Valid() && fresh(t)
      ensures elementCounter == old(elementCounter) + 1
      ensures t.base.id == FormatId("element", elementCounter) && IdNumber(t.base.id) == elementCounter
      ensures issued == old(issued) + [t.base.id]
      ensures var fs := fontSize.GetOr(DefaultTextSize);
              && t.base == BaseRecord(Text, x, y, TextWidth(text, fs), TextHeight(fs), t.base.id,
                                      elementCounter, currentGroupId)
              && t.base.width == TextWidth(text, fs) && t.base.height == TextHeight(fs)
              && t.extra.TextPart? && t.extra.fontSize == fs
      ensures t.extra.text == text && t.extra.originalText == text && t.extra.containerId == containerId
      ensures t.extra.textAlign == (if Truthy(containerId) then "center" else "left")
      ensures t.extra.verticalAlign == (if Truthy(containerId) then "middle" else "top")
      ensures t.extra.fontFamily == 5 && t.extra.autoResize && t.extra.lineHeight == 1.25
      ensures t.boundElements == []
      ensures elements == old(elements) && groupCounter == old(groupCounter)
      ensures currentGroupId == old(currentGroupId)
    {
      var fs := fontSize.GetOr(DefaultTextSize);
      var b := CreateBaseElement(Text, x, y, TextWidth(text, fs), TextHeight(fs), None);
      IdNumberOfFormatId("element", elementCounter);
      var centred := Truthy(containerId);
      t := new Element(b, TextPart(text, fs, 5, if centred then "center" else "left",
                                   if centred then "middle" else "top", containerId, text, true, 1.25));
    }

    /** create_rectangle (kind Rectangle) and create_ellipse (kind Ellipse): a shape with
        default size 120x60 and a transparent background, and — for a non-empty caption —
        a centred text bound inside it. Neither touches the element list. */
    method CreateShape(kind: Kind, x: real, y: real, width: Option<real>, height: Option<real>,
                       caption: string, backgroundColor: Option<string>) returns (shape: Element, text: Element?)
      requires Valid() && (kind == Rectangle || kind == Ellipse)
      modifies this
      ensures Valid() && fresh(shape)
      ensures elements == old(elements) && groupCounter == old(groupCounter)
      ensures currentGroupId == old(currentGroupId)
      ensures shape.base.id == FormatId(ShapePrefix(kind), old(elementCounter) + 1)
      ensures IdNumber(shape.base.id) == old(elementCounter) + 1
      ensures var w := width.GetOr(DefaultElementWidth);
              var h := height.GetOr(DefaultElementHeight);
              && shape.base.kind == kind && shape.base.x == x && shape.base.y == y
              && shape.base.width == w && shape.base.height == h
              && shape.base.backgroundColor == backgroundColor.GetOr(Transparent)
              && shape.base.roundness == Some(ShapeRoundness(kind))
              && shape.base == ShapeRecord(kind, x, y, w, h, shape.base.id, old(elementCounter) + 1,
                                           currentGroupId, backgroundColor.GetOr(Transparent))
              && (text != null ==> Point(text.base.x, text.base.y) == CaptionPosition(x, y, w, h, caption))
      ensures shape.extra == Shape
      ensures (text != null) == (caption != "")
      ensures shape.boundElements == TextRefOf(text)
      ensures text == null ==> elementCounter == old(elementCounter) + 1 && issued == old(issued) + [shape.base.id]
      ensures text != null ==>
                && fresh(text) && text != shape
                && elementCounter == old(elementCounter) + 2
                && issued == old(issued) + [shape.base.id] + [text.base.id]
                && text.base.id !in old(issued) + [shape.base.id]
                && text.base.id == FormatId("element", elementCounter)
                && IdNumber(text.base.id) == elementCounter
                && text.base.kind == Text
                && text.base.groupIds == GroupTag(currentGroupId)
                && text.extra == TextPart(caption, DefaultTextSize, 5, "center", "middle",
                                          Some(shape.base.id), caption, true, 1.25)
                && text.base.width == TextWidth(caption, DefaultTextSize)
                && text.base.height == TextHeight(DefaultTextSize)
                && text.boundElements == []
    {
      var w := width.GetOr(DefaultElementWidth);
      var h := height.GetOr(DefaultElementHeight);
      var color := backgroundColor.GetOr(Transparent);
      var id := GenerateId(ShapePrefix(kind));
      var b := CreateBaseElement(kind, x, y, w, h, Some(id));
      shape := new Element(b.(backgroundColor := color, roundness := Some(ShapeRoundness(kind))), Shape);
      text := null;
      if caption != "" {
        text := AddCaption(shape, caption);
      }
    }

    /** The caption step of create_rectangle / create_ellipse: a text centred on the shape,
        contained in it, whose reference the shape gains. */
    method AddCaption(shape: Element, caption: string) returns (text: Element)
      requires Valid() && shape.base.id != ""
      modifies this, shape
      ensures Valid() && fresh(text) && text != shape
      ensures elements == old(elements) && groupCounter == old(groupCounter)
      ensures currentGroupId == old(currentGroupId)
      ensures elementCounter == old(elementCounter) + 1 && issued == old(issued) + [text.base.id]
      ensures text.base.id !in old(issued)
      ensures text.base.id == FormatId("element", elementCounter) && IdNumber(text.base.id) == elementCounter
      ensures text.base.kind == Text && text.base.groupIds == GroupTag(currentGroupId)
      ensures Point(text.base.x, text.base.y)
              == CaptionPosition(shape.base.x, shape.base.y, shape.base.width, shape.base.height, caption)
      ensures text.extra == TextPart(caption, DefaultTextSize, 5, "center", "middle",
                                     Some(shape.base.id), caption, true, 1.25)
      ensures text.base.width == TextWidth(caption, DefaultTextSize) && text.base.height == TextHeight(DefaultTextSize)
      ensures text.boundElements == []
      ensures shape.boundElements == old(shape.boundElements) + [BoundRef(Text, text.base.id)]
    {
      var at := CaptionPosition(shape.base.x, shape.base.y, shape.base.width, shape.base.height, caption);
      text := CreateTextElement(caption, at.x, at.y, Some(shape.base.id), None);
      shape.boundElements := shape.boundElements + [BoundRef(Text, text.base.id)];
    }

    /** create_rectangle / create_ellipse as the layouts call them: default size, the given
        background colour, and the caption inside when it is non-empty. */
    method CreateDefaultShape(kind: Kind, x: real, y: real, caption: string, color: string)
      returns (shape: Element, text: Element?)
      requires Valid() && (kind == Rectangle || kind == Ellipse)
      modifies this
      ensures Valid() && elements == old(elements)
      ensures groupCounter == old(groupCounter) && currentGroupId == old(currentGroupId)
      ensures fresh(shape) && PlacedShape(shape, text, caption, kind, x, y, color, currentGroupId)
      ensures shape.boundElements == TextRefOf(text)
      ensures elementCounter == old(elementCounter) + 1 + (if caption != "" then 1 else 0)
      ensures shape.base.id !in old(issued)
      ensures issued == old(issued) + [shape.base.id] + (if text != null then [text.base.id] else [])
      ensures text != null ==> text.base.id !in old(issued) + [shape.base.id]
      ensures text != null ==> fresh(text) && text.boundElements == []
    {
      shape, text := CreateShape(kind, x, y, None, None, caption, Some(color));
    }

    /** The endpoint scan of create_arrow over the current element list. */
    method FindEndpoints(startId: string, endId: string) returns (r: Lookup)
      ensures r == Scan(elements, startId, endId)
      ensures r.Crash? <==> null in elements
      ensures r.Endpoints? ==>
                && r.start == LastWithId(elements, startId)
                && r.end == (if startId == endId then null else LastWithId(elements, endId))
    {
      var start: Element? := null;
      var end: Element? := null;
      var i := 0;
      while i < |elements|
        invariant 0 <= i <= |elements|
        invariant Scan(elements[..i], startId, endId) == Endpoints(start, end)
      {
        var e := elements[i];
        assert elements[..i + 1][..i] == elements[..i];
        if e == null {
          r := Crash;
          ScanSpec(elements, startId, endId);
          assert elements[..i + 1] == elements[..i] + [null];
          ScanPrefixCrash(elements, i + 1, startId, endId);
          return;
        }
        if e.base.id == startId {
          start := e;
        } else if e.base.id == endId {
          end := e;
        }
        i := i + 1;
      }
      assert elements[..i] == elements;
      r := Endpoints(start, end);
      ScanSpec(elements, startId, endId);
    }

    /** create_arrow: connect two elements of the list with an arrow from the right middle
        of the first to the left middle of the second (unless positions are given), and add
        a back-reference to the arrow to both endpoints. Fails, changing nothing, when an
        endpoint is missing (in particular when both ids are the same) or the list holds a None.
        The arrow itself is not added to the list. */
    method CreateArrow(startId: string, endId: string, startPos: Option<Point>, endPos: Option<Point>,
                       style: string, strokeWidth: int) returns (r: Result<Element>)
      requires Valid()
      modifies this, Targets(elements, startId, endId)
      ensures Valid()
      ensures elements == old(elements) && groupCounter == old(groupCounter)
      ensures currentGroupId == old(currentGroupId)
      ensures var l := old(Scan(elements, startId, endId));
              && (r.Ok? <==> l.Endpoints? && l.start != null && l.end != null)
              && (r.Err? ==> r.error == (if l.Crash? then NoneEntry else NotFound))
      ensures r.Err? ==>
                && elementCounter == old(elementCounter) && issued == old(issued)
                && forall e: Element :: e in old(elements) ==> e.boundElements == old(e.boundElements)
      ensures r.Ok? ==>
                var l := old(Scan(elements, startId, endId));
                var s, e := l.start, l.end;
                var sp := startPos.GetOr(RightMiddle(s));
                var ep := endPos.GetOr(LeftMiddle(e));
                var a := r.value;
                && fresh(a) && s != e
                && elementCounter == old(elementCounter) + 1
                && a.base.id == FormatId("arrow", elementCounter) && IdNumber(a.base.id) == elementCounter
                && a.base.id !in old(issued) && issued == old(issued) + [a.base.id]
                && ArrowFrom(a, s, e, sp, ep, currentGroupId)
                && a.base.strokeStyle == style && a.base.strokeWidth == strokeWidth
                && a.base.roundness == Some(2)
                && a.boundElements == []
                && s.boundElements == old(s.boundElements) + [BoundRef(Arrow, a.base.id)]
                && e.boundElements == old(e.boundElements) + [BoundRef(Arrow, a.base.id)]
    {
      var l := FindEndpoints(startId, endId);
      if l.Crash? {
        return Err(NoneEntry);
      }
      if l.start == null || l.end == null {
        return Err(NotFound);
      }
      var s, e := l.start, l.end;
      ScanSpec(elements, startId, endId);
      LastWithIdFound(elements, startId);
      LastWithIdFound(elements, endId);
      var sp := startPos.GetOr(RightMiddle(s));
      var ep := endPos.GetOr(LeftMiddle(e));
      var a := DrawArrow(s, e, sp, ep, style, strokeWidth);
      r := Ok(a);
    }

    /** The drawing half of create_arrow, once both endpoints are found: an "arrow-n" element
        spanning sp to ep, bound to both endpoints, each of which gains a reference to it. */
    method DrawArrow(s: Element, e: Element, sp: Point, ep: Point, style: string, strokeWidth: int)
      returns (a: Element)
      requires Valid() && s != e
      modifies this, s, e
      ensures Valid() && fresh(a)
      ensures elements == old(elements) && groupCounter == old(groupCounter)
      ensures currentGroupId == old(currentGroupId)
      ensures elementCounter == old(elementCounter) + 1
      ensures a.base.id == FormatId("arrow", elementCounter) && IdNumber(a.base.id) == elementCounter
      ensures a.base.id !in old(issued) && issued == old(issued) + [a.base.id]
      ensures ArrowFrom(a, s, e, sp, ep, currentGroupId)
      ensures a.base.strokeStyle == style && a.base.strokeWidth == strokeWidth && a.base.roundness == Some(2)
      ensures a.boundElements == []
      ensures s.boundElements == old(s.boundElements) + [BoundRef(Arrow, a.base.id)]
      ensures e.boundElements == old(e.boundElements) + [BoundRef(Arrow, a.base.id)]
    {
      var dx := ep.x - sp.x;
      var dy := ep.y - sp.y;
      var id := GenerateId("arrow");
      var b := CreateBaseElement(Arrow, sp.x, sp.y, Abs(dx), Abs(dy), Some(id));
      a := new Element(b.(strokeStyle := style, strokeWidth := strokeWidth, roundness := Some(2)),
                       ArrowPart(Binding(s.base.id, 0, 1), Binding(e.base.id, 0, 1), None, None, Some("arrow"),
                                 [Point(0.0, 0.0), Point(dx, dy)]));
      s.boundElements := s.boundElements + [BoundRef(Arrow, id)];
      e.boundElements := e.boundElements + [BoundRef(Arrow, id)];
    }

    /** One iteration of the first pass of create_sequential_layout: the shape for item i at
        x = startX + i*(120+150) (the running x of the source, which grows by 120+150 per item),
        coloured colors[i % |colors|]. */
    method PlaceNext(items: seq<string>, startX: real, startY: real, kind: Kind, palette: seq<string>,
                     shapes: seq<Element>, ghost captions: seq<Element?>, acc: seq<Element?>)
      returns (shape: Element, text: Element?)
      requires Valid() && (kind == Rectangle || kind == Ellipse)
      requires |shapes| < |items| && |palette| > 0
      requires ChainSoFar(shapes, captions, acc, items, kind, startX, startY, palette, currentGroupId, issued)
      requires ChainBound(shapes, captions, [], 0)
      modifies this
      ensures Valid() && elements == old(elements)
      ensures groupCounter == old(groupCounter) && currentGroupId == old(currentGroupId)
      ensures fresh(shape) && ChainBound(shapes + [shape], captions + [text], [], 0)
      ensures ChainSoFar(shapes + [shape], captions + [text], acc + [shape] + (if text != null then [text] else []),
                         items, kind, startX, startY, palette, currentGroupId, issued)
      ensures elementCounter == old(elementCounter) + 1 + (if text != null then 1 else 0)
    {
      var i := |shapes|;
      ghost var issued0 := issued;
      shape, text := CreateDefaultShape(kind, SequentialX(startX, i), startY, items[i], Cycle(palette, i));
      forall a | 0 <= a < |shapes|
        ensures shapes[a].base.id != shape.base.id
      {
        assert IdIssued(shapes, issued0, a);
      }
      DistinctIdsAppend(shapes, shape);
      var shapes', captions' := shapes + [shape], captions + [text];
      forall j | 0 <= j < |shapes'|
        ensures IdIssued(shapes', issued, j) && BoundAt(shapes', captions', [], j, 0)
      {
        if j < i {
          assert IdIssued(shapes, issued0, j) && old(BoundAt(shapes, captions, [], j, 0));
        }
      }
      ChainPlacedStep(shapes, captions, items, kind, startX, startY, palette, currentGroupId, shape, text);
      ShapesAndCaptionsStep(shapes, captions, shape, text);
    }

    /** The first pass of create_sequential_layout: shape i of the chain at
        x = startX + i*(120+150), coloured colors[i % |colors|], with its caption inside.
        Fails before making anything when there are items but no colours. */
    method PlaceChain(items: seq<string>, startX: real, startY: real, kind: Kind, palette: seq<string>)
      returns (ok: bool, shapes: seq<Element>, ghost captions: seq<Element?>, acc: seq<Element?>)
      requires Valid() && (kind == Rectangle || kind == Ellipse)
      modifies this
      ensures Valid() && elements == old(elements)
      ensures groupCounter == old(groupCounter) && currentGroupId == old(currentGroupId)
      ensures ok <==> |items| == 0 || |palette| > 0
      ensures !ok ==> elementCounter == old(elementCounter) && issued == old(issued)
      ensures ok ==>
                && |shapes| == |captions| == |items|
                && elementCounter == old(elementCounter) + |acc|
                && ChainSoFar(shapes, captions, acc, items, kind, startX, startY, palette, currentGroupId, issued)
                && (forall j :: 0 <= j < |items| ==> fresh(shapes[j]))
                && ChainBound(shapes, captions, [], 0)
    {
      shapes, captions, acc := [], [], [];
      if |items| > 0 && |palette| == 0 {
        // colors[0 % len(colors)] fails on the first item, before anything is made
        return false, shapes, captions, acc;
      }
      ghost var c0 := elementCounter;
      var i := 0;
      while i < |items|
        invariant 0 <= i <= |items| && |shapes| == |captions| == i
        invariant Valid() && elements == old(elements)
        invariant groupCounter == old(groupCounter) && currentGroupId == old(currentGroupId)
        invariant |items| > 0 ==> |palette| > 0
        invariant elementCounter == c0 + |acc|
        invariant ChainSoFar(shapes, captions, acc, items, kind, startX, startY, palette, currentGroupId, issued)
        invariant forall j :: 0 <= j < i ==> fresh(shapes[j])
        invariant ChainBound(shapes, captions, [], 0)
      {
        var shape, text := PlaceNext(items, startX, startY, kind, palette, shapes, captions, acc);
        acc := acc + [shape] + (if text != null then [text] else []);
        shapes, captions := shapes + [shape], captions + [text];
        i := i + 1;
      }
      ok := true;
    }

    /** One step of the second pass of create_sequential_layout: put both shapes in the
        list, draw the arrow between them, then take both out again. The arrow's failure
        (a None in the list) propagates with the two shapes still in the list. */
    method LinkPair(s: Element, e: Element) returns (r: Result<Element>)
      requires Valid() && s !in elements && e !in elements && s.base.id != e.base.id
      modifies this, s, e
      ensures Valid() && groupCounter == old(groupCounter) && currentGroupId == old(currentGroupId)
      ensures r.Ok? <==> null !in old(elements)
      ensures r.Err? ==>
                && r.error == NoneEntry && elements == old(elements) + [s, e]
                && elementCounter == old(elementCounter) && issued == old(issued)
                && s.boundElements == old(s.boundElements) && e.boundElements == old(e.boundElements)
      ensures r.Ok? ==>
                && elements == old(elements)
                && fresh(r.value) && DefaultArrow(r.value, s, e, currentGroupId)
                && elementCounter == old(elementCounter) + 1 && IdNumber(r.value.base.id) == elementCounter
                && issued == old(issued) + [r.value.base.id]
                && s.boundElements == old(s.boundElements) + [BoundRef(Arrow, r.value.base.id)]
                && e.boundElements == old(e.boundElements) + [BoundRef(Arrow, r.value.base.id)]
    {
      ghost var oldElements := elements;
      if s !in elements {
        AddElement(s);
      }
      if e !in elements {
        AddElement(e);
      }
      assert elements == oldElements + [s, e];
      if null in oldElements {
        ScanSpec(elements, s.base.id, e.base.id);
      } else {
        ScanAppendedPair(oldElements, s, e);
      }
      r := CreateArrow(s.base.id, e.base.id, None, None, "solid", 2);
      if r.Err? {
        return;
      }
      DropTemporary(oldElements, s, e);
    }

    /** The two `remove` calls that end each step of the second pass: each shape is removed
        (first occurrence) if present, which restores the list as it was before the step. */
    method DropTemporary(ghost before: seq<Element?>, s: Element, e: Element)
      requires elements == before + [s, e] && s !in before && e !in before && s != e
      modifies this
      ensures elements == before
      ensures elementCounter == old(elementCounter) && groupCounter == old(groupCounter)
      ensures currentGroupId == old(currentGroupId) && issued == old(issued)
    {
      DropPair(before, s, e);
      if s in elements {
        elements := RemoveFirst(elements, s);
      }
      if e in elements {
        elements := RemoveFirst(elements, e);
      }
    }

    /** One iteration of the second pass of create_sequential_layout: the arrow from shape k
        to shape k+1, whose reference both of them gain; no other shape changes. */
    method LinkNext(shapes: seq<Element>, ghost captions: seq<Element?>, arrows: seq<Element>, k: nat)
      returns (r: Result<Element>)
      requires Valid() && DistinctIds(shapes) && k + 1 < |shapes| && |arrows| == k
      requires forall j :: 0 <= j < |shapes| ==> shapes[j] !in elements
      requires ChainBound(shapes, captions, arrows, k) && ChainArrows(shapes, arrows, currentGroupId)
      modifies this, shapes[k], shapes[k + 1]
      ensures Valid() && groupCounter == old(groupCounter) && currentGroupId == old(currentGroupId)
      ensures r.Ok? <==> null !in old(elements)
      ensures r.Err? ==>
                && r.error == NoneEntry && elements == old(elements) + [shapes[k], shapes[k + 1]]
                && elementCounter == old(elementCounter)
      ensures r.Ok? ==>
                && elements == old(elements) && elementCounter == old(elementCounter) + 1
                && fresh(r.value)
                && ChainBound(shapes, captions, arrows + [r.value], k + 1)
                && ChainArrows(shapes, arrows + [r.value], currentGroupId)
    {
      var s, e := shapes[k], shapes[k + 1];
      assert Apart(shapes, k, k + 1);
      r := LinkPair(s, e);
      if r.Err? {
        return;
      }
      var arrows', k' := arrows + [r.value], k + 1;
      forall j | 0 <= j < |shapes|
        ensures BoundAt(shapes, captions, arrows', j, k')
      {
        assert old(BoundAt(shapes, captions, arrows, j, k));
        if j < k {
          assert Apart(shapes, j, k) && Apart(shapes, j, k + 1);
        } else if j > k + 1 {
          assert Apart(shapes, k, j) && Apart(shapes, k + 1, j);
        }
        BoundAtStep(shapes, captions, arrows, r.value, j, old(shapes[j].boundElements));
      }
      ChainArrowsStep(shapes, arrows, r.value, currentGroupId);
    }

    /** The second pass of create_sequential_layout: an arrow from each shape to the next,
        in order, each leaving a reference on both of its shapes. */
    method LinkChain(shapes: seq<Element>, ghost captions: seq<Element?>) returns (r: Result<seq<Element>>)
      requires Valid() && DistinctIds(shapes)
      requires forall j :: 0 <= j < |shapes| ==> shapes[j] !in elements
      requires ChainBound(shapes, captions, [], 0)
      modifies this, set j | 0 <= j < |shapes| :: shapes[j]
      ensures Valid() && groupCounter == old(groupCounter) && currentGroupId == old(currentGroupId)
      ensures r.Ok? <==> |shapes| <= 1 || null !in old(elements)
      ensures r.Err? ==>
                && r.error == NoneEntry && elements == old(elements) + [shapes[0], shapes[1]]
                && elementCounter == old(elementCounter)
      ensures r.Ok? ==>
                var arrows := r.value;
                && elements == old(elements)
                && |arrows| == (if |shapes| == 0 then 0 else |shapes| - 1)
                && elementCounter == old(elementCounter) + |arrows|
                && (forall i :: 0 <= i < |arrows| ==> fresh(arrows[i]))
                && ChainArrows(shapes, arrows, currentGroupId)
                && ChainBound(shapes, captions, arrows, |arrows|)
    {
      var n := |shapes|;
      var arrows: seq<Element> := [];
      var k := 0;
      while k + 1 < n
        invariant 0 <= k && (n == 0 ==> k == 0) && (n > 0 ==> k <= n - 1)
        invariant Valid() && elements == old(elements)
        invariant groupCounter == old(groupCounter) && currentGroupId == old(currentGroupId)
        invariant |arrows| == k && elementCounter == old(elementCounter) + k
        invariant k > 0 ==> null !in old(elements)
        invariant forall i :: 0 <= i < k ==> fresh(arrows[i])
        invariant ChainArrows(shapes, arrows, currentGroupId)
        invariant ChainBound(shapes, captions, arrows, k)
      {
        var a := LinkNext(shapes, captions, arrows, k);
        if a.Err? {
          return Err(a.error);
        }
        arrows := arrows + [a.value];
        k := k + 1;
      }
      r := Ok(arrows);
    }

    /** create_sequential_layout: n shapes in a row, shape i at x = startX + i*(120+150) with
        colour colors[i % |colors|] and its caption inside, then n-1 arrows linking shape i to
        shape i+1 in order. The shapes are put in the element list only while each arrow is
        made, so on success the list is as before. Fails on an empty palette (before anything
        is made) or when the list holds a None (at the first arrow, leaving the first two
        shapes behind in the list). */
    method CreateSequentialLayout(items: seq<string>, startX: real, startY: real, itemType: string,
                                  colors: Option<seq<string>>)
      returns (r: Result<seq<Element?>>, ghost shapes: seq<Element>, ghost captions: seq<Element?>,
               ghost arrows: seq<Element>)
      requires Valid()
      modifies this
      ensures Valid() && groupCounter == old(groupCounter) && currentGroupId == old(currentGroupId)
      ensures var palette := colors.GetOr([LlmColor]);
              r.Ok? <==> (|items| == 0 || |palette| > 0) && (|items| <= 1 || null !in old(elements))
      ensures r.Err? ==> r.error != NotFound
      ensures r == Err(DivisionByZero) <==> |items| > 0 && |colors.GetOr([LlmColor])| == 0
      ensures r == Err(DivisionByZero) ==> elements == old(elements) && elementCounter == old(elementCounter)
      ensures r == Err(NoneEntry) ==>
                && |shapes| == |captions| == |items| >= 2
                && elements == old(elements) + [shapes[0], shapes[1]]
                && elementCounter == old(elementCounter) + |ShapesAndCaptions(shapes, captions)|
      ensures r.Ok? ==>
                var n := |items|;
                var palette := colors.GetOr([LlmColor]);
                var kind := if itemType == "rectangle" then Rectangle else Ellipse;
                && |shapes| == |captions| == n && |arrows| == (if n == 0 then 0 else n - 1)
                && elements == old(elements)
                && r.value == ShapesAndCaptions(shapes, captions) + arrows
                && elementCounter == old(elementCounter) + |r.value|
                && (forall i :: 0 <= i < n ==> fresh(shapes[i]))
                && (forall i :: 0 <= i < |arrows| ==> fresh(arrows[i]))
                && ChainPlaced(shapes, captions, items, kind, startX, startY, palette, currentGroupId)
                && ChainArrows(shapes, arrows, currentGroupId)
                && ChainBound(shapes, captions, arrows, |arrows|)
    {
      var palette := colors.GetOr([LlmColor]);
      var kind := if itemType == "rectangle" then Rectangle else Ellipse;
      var ok, shapeList, acc;
      ok, shapeList, captions, acc := PlaceChain(items, startX, startY, kind, palette);
      shapes, arrows := shapeList, [];
      if !ok {
        return Err(DivisionByZero), shapes, captions, arrows;
      }
      var links := LinkChain(shapeList, captions);
      if links.Err? {
        return Err(links.error), shapes, captions, arrows;
      }
      arrows := links.value;
      r := Ok(acc + links.value);
    }

    /** Placing one spoke of a hub-and-spoke layout: the rectangle for names[i] at positions[i],
        coloured palette[i % |palette|], with its caption, both appended to the element list. */
    method SpokePlace(hub: Element, ghost hubText: Element?, ghost prefix: seq<Element?>, names: seq<string>,
                      positions: seq<Point>, palette: seq<string>, items: seq<Element>, ghost texts: seq<Element?>)
      returns (item: Element, text: Element?)
      requires Valid() && |items| < |names| <= |positions| && |palette| > 0
      requires FanRun(prefix, hub, hubText, items, texts, elements, issued)
      requires FanPlaced(items, texts, names, positions, palette, currentGroupId)
      modifies this
      ensures Valid() && groupCounter == old(groupCounter) && currentGroupId == old(currentGroupId)
      ensures fresh(item) && (text != null ==> fresh(text)) && item.boundElements == TextRefOf(text)
      ensures text != null <==> names[|items|] != ""
      ensures elements == old(elements) + [item, text]
      ensures null in elements <==> null in old(elements) || text == null
      ensures elementCounter == old(elementCounter) + 1 + (if text != null then 1 else 0)
      ensures FanRun(prefix, hub, hubText, items + [item], texts + [text], elements, issued)
      ensures FanPlaced(items + [item], texts + [text], names, positions, palette, currentGroupId)
    {
      var i := |items|;
      item, text := CreateDefaultShape(Rectangle, positions[i].x, positions[i].y, names[i], Cycle(palette, i));
      AddElement(item);
      AddElement(text);
      SpokeAppend(prefix, hub, hubText, items, texts, names, positions, palette, currentGroupId,
                  old(elements), old(issued), item, text, issued);
    }

    /** The arrow from the hub to a newly placed spoke, as create_arrow draws it. Fails with
        the list's None, changing nothing, when the list holds one. */
    method HubArrow(hub: Element, ghost hubText: Element?, ghost prefix: seq<Element?>, ghost items: seq<Element>,
                    ghost texts: seq<Element?>, item: Element, ghost text: Element?)
      returns (r: Result<Element>)
      requires Valid() && |items| == |texts|
      requires elements == prefix + [hub, hubText] + Pairs(items + [item], texts + [text])
      requires DistinctIds([hub, hubText] + Pairs(items + [item], texts + [text]))
      modifies this, hub, item
      ensures Valid() && groupCounter == old(groupCounter) && currentGroupId == old(currentGroupId)
      ensures elements == old(elements)
      ensures r.Ok? <==> null !in elements
      ensures r.Err? ==>
                && r.error == NoneEntry && elementCounter == old(elementCounter) && issued == old(issued)
                && hub.boundElements == old(hub.boundElements) && item.boundElements == old(item.boundElements)
      ensures r.Ok? ==>
                && fresh(r.value) && elementCounter == old(elementCounter) + 1
                && issued == old(issued) + [r.value.base.id]
                && DefaultArrow(r.value, hub, item, currentGroupId)
                && hub.boundElements == old(hub.boundElements) + [BoundRef(Arrow, r.value.base.id)]
                && item.boundElements == old(item.boundElements) + [BoundRef(Arrow, r.value.base.id)]
    {
      SpokeScan(prefix, hub, hubText, items, texts, item, text, elements);
      r := CreateArrow(hub.base.id, item.base.id, None, None, "solid", 2);
    }

    /** Linking one spoke: the arrow from the hub to the newly placed spoke, whose reference
        both gain; no other spoke changes. */
    method SpokeLink(hub: Element, ghost hubText: Element?, ghost prefix: seq<Element?>, items: seq<Element>,
                     ghost texts: seq<Element?>, arrows: seq<Element>, item: Element, ghost text: Element?)
      returns (r: Result<Element>)
      requires Valid() && |items| == |texts|
      requires FanRun(prefix, hub, hubText, items + [item], texts + [text], elements, issued)
      requires FanLinks(hub, hubText, items, texts, arrows, currentGroupId)
      requires item.boundElements == TextRefOf(text)
      modifies this, hub, item
      ensures Valid() && groupCounter == old(groupCounter) && currentGroupId == old(currentGroupId)
      ensures elements == old(elements)
      ensures r.Ok? <==> null !in elements
      ensures r.Err? ==> r.error == NoneEntry && elementCounter == old(elementCounter)
      ensures FanRun(prefix, hub, hubText, items + [item], texts + [text], elements, issued)
      ensures r.Ok? ==>
                && fresh(r.value) && elementCounter == old(elementCounter) + 1
                && FanLinks(hub, hubText, items + [item], texts + [text], arrows + [r.value], currentGroupId)
    {
      ghost var issued0 := issued;
      r := HubArrow(hub, hubText, prefix, items, texts, item, text);
      if r.Err? {
        return;
      }
      var a := r.value;
      AllIssuedGrow([hub, hubText] + Pairs(items + [item], texts + [text]), issued0, [a.base.id]);
      FanArrowsStep(hub, items, arrows, item, a, currentGroupId);
      ArrowRefsStep(arrows, a);
      var items', texts', arrows' := items + [item], texts + [text], arrows + [a];
      forall j | 0 <= j < |items'|
        ensures SpokeBoundAt(items', texts', arrows', j)
      {
        if j < |items| {
          SpokeApart(hub, hubText, items, texts, item, text, j);
          assert old(SpokeBoundAt(items, texts, arrows, j));
        }
      }
    }

    /** One spoke of a hub-and-spoke layout: its rectangle and caption appended to the list,
        then the arrow from the hub. The arrow fails on a None in the list: one that was there
        before the layout's spokes (start), or this spoke's caption slot when its name is empty. */
    method FanStep(hub: Element, ghost hubText: Element?, ghost prefix: seq<Element?>, ghost start: seq<Element?>,
                   names: seq<string>, positions: seq<Point>, palette: seq<string>, items: seq<Element>,
                   ghost texts: seq<Element?>, arrows: seq<Element>, acc: seq<Element?>)
      returns (r: Result<Element>, item: Element, text: Element?, acc': seq<Element?>)
      requires Valid() && |items| < |names| <= |positions| && |palette| > 0
      requires |items| == 0 ==> elements == start
      requires |items| > 0 ==> null !in start && null !in elements
      requires |items| <= FirstBlank(names)
      requires FanRun(prefix, hub, hubText, items, texts, elements, issued)
      requires FanPlaced(items, texts, names, positions, palette, currentGroupId)
      requires FanLinks(hub, hubText, items, texts, arrows, currentGroupId)
      requires acc == Triples(items, texts, arrows)
      modifies this, hub
      ensures Valid() && groupCounter == old(groupCounter) && currentGroupId == old(currentGroupId)
      ensures fresh(item)
      ensures FanRun(prefix, hub, hubText, items + [item], texts + [text], elements, issued)
      ensures FanPlaced(items + [item], texts + [text], names, positions, palette, currentGroupId)
      ensures r.Err? ==> r.error == NoneEntry && |items| == (if null in start then 0 else FirstBlank(names))
      ensures r.Ok? ==>
                && |items| + 1 <= FirstBlank(names) && null !in start && null !in elements
                && fresh(r.value) && elementCounter == old(elementCounter) + 3
                && FanLinks(hub, hubText, items + [item], texts + [text], arrows + [r.value], currentGroupId)
                && acc' == Triples(items + [item], texts + [text], arrows + [r.value])
    {
      if |items| < FirstBlank(names) {
        BeforeFirstBlank(names, |items|);
      }
      item, text := SpokePlace(hub, hubText, prefix, names, positions, palette, items, texts);
      r := SpokeLink(hub, hubText, prefix, items, texts, arrows, item, text);
      acc' := acc;
      if r.Ok? {
        TriplesStep(items, texts, arrows, item, text, r.value);
        acc' := acc + [item, text, r.value];
      }
    }

    /** The centre of a hub-and-spoke layout: a shape of the default size at (x, y) with its
        caption, both appended to the element list, starting a run with no spokes yet. */
    method PlaceHub(kind: Kind, x: real, y: real, name: string, color: string)
      returns (hub: Element, hubText: Element?)
      requires Valid() && (kind == Rectangle || kind == Ellipse)
      modifies this
      ensures Valid() && groupCounter == old(groupCounter) && currentGroupId == old(currentGroupId)
      ensures fresh(hub) && PlacedShape(hub, hubText, name, kind, x, y, color, currentGroupId)
      ensures hub.boundElements == TextRefOf(hubText)
      ensures elements == old(elements) + [hub, hubText]
      ensures null in elements <==> null in old(elements) || name == ""
      ensures elementCounter == old(elementCounter) + 1 + (if name != "" then 1 else 0)
      ensures FanRun(old(elements), hub, hubText, [], [], elements, issued)
    {
      hub, hubText := CreateDefaultShape(kind, x, y, name, color);
      AddElement(hub);
      AddElement(hubText);
      FanStart(old(elements), hub, hubText, old(issued), issued);
    }

    /** The spokes of a hub-and-spoke layout, in order: for each name its rectangle and caption
        appended to the list, then the arrow from the hub. Fails at the first arrow whose scan
        meets a None: the hub's missing caption, an earlier None, or this spoke's missing caption. */
    method FanOut(hub: Element, ghost hubText: Element?, ghost prefix: seq<Element?>, names: seq<string>,
                  positions: seq<Point>, palette: seq<string>)
      returns (r: Result<seq<Element?>>, items: seq<Element>, ghost texts: seq<Element?>,
               ghost arrows: seq<Element>)
      requires Valid() && |names| <= |positions| && (|names| > 0 ==> |palette| > 0)
      requires FanRun(prefix, hub, hubText, [], [], elements, issued)
      requires hub.boundElements == TextRefOf(hubText)
      modifies this, hub
      ensures Valid() && groupCounter == old(groupCounter) && currentGroupId == old(currentGroupId)
      ensures r.Ok? <==> |names| == 0 || (null !in old(elements) && FirstBlank(names) == |names|)
      ensures r.Err? ==>
                && r.error == NoneEntry && |items| == |texts|
                && |items| == 1 + (if null in old(elements) then 0 else FirstBlank(names))
                && elements == old(elements) + Pairs(items, texts)
                && FanPlaced(items, texts, names, positions, palette, currentGroupId)
      ensures r.Ok? ==>
                && |items| == |texts| == |arrows| == |names| && r.value == Triples(items, texts, arrows)
                && elementCounter == old(elementCounter) + |r.value|
                && fresh(items)
                && elements == old(elements) + Pairs(items, texts) && (|names| > 0 ==> null !in elements)
                && FanRun(prefix, hub, hubText, items, texts, elements, issued)
                && FanPlaced(items, texts, names, positions, palette, currentGroupId)
                && FanLinks(hub, hubText, items, texts, arrows, currentGroupId)
    {
      items, texts, arrows := [], [], [];
      var spokes: seq<Element> := [];
      var links: seq<Element> := [];
      var acc: seq<Element?> := [];
      ghost var c0 := elementCounter;
      assert elements == prefix + [hub, hubText];
      var i := 0;
      while i < |names|
        invariant 0 <= i <= |names| && |spokes| == |texts| == |links| == i
        invariant items == spokes && arrows == links
        invariant Valid() && groupCounter == old(groupCounter) && currentGroupId == old(currentGroupId)
        invariant i == 0 ==> elements == old(elements)
        invariant i > 0 ==> null !in old(elements) && null !in elements
        invariant i <= FirstBlank(names)
        invariant acc == Triples(spokes, texts, links) && elementCounter == c0 + 3 * i
        invariant forall k :: 0 <= k < |spokes| ==> fresh(spokes[k])
        invariant FanRun(prefix, hub, hubText, spokes, texts, elements, issued)
        invariant FanPlaced(spokes, texts, names, positions, palette, currentGroupId)
        invariant FanLinks(hub, hubText, spokes, texts, links, currentGroupId)
      {
        var a, item, text;
        a, item, text, acc := FanStep(hub, hubText, prefix, old(elements), names, positions, palette,
                                      spokes, texts, links, acc);
        if a.Err? {
          items, texts := spokes + [item], texts + [text];
          return Err(NoneEntry), items, texts, arrows;
        }
        spokes, texts, links := spokes + [item], texts + [text], links + [a.value];
        items, arrows := spokes, links;
        i := i + 1;
      }
      r := Ok(acc);
    }

    /** create_routing_layout: the router rectangle at (startX, startY), coloured routerColor
        (by default the code colour), with its caption; then, for destination i, a rectangle on
        the circle of radius 1.5 * 150 around the router at angle 2*pi*i/n (the unit vector
        comes from unit(i, n)), coloured from the palette cyclically, its caption, and an arrow
        from the router. With no destinations or an empty palette the division by zero happens
        once the router is placed; an arrow scan that meets a None fails the layout. */
    method CreateRoutingLayout(routerName: string, destinations: seq<string>, startX: real, startY: real,
                               routerColor: Option<string>, destColors: Option<seq<string>>,
                               unit: (nat, nat) -> Point)
      returns (r: Result<seq<Element?>>, ghost router: Element, ghost routerText: Element?,
               ghost dests: seq<Element>, ghost texts: seq<Element?>, ghost arrows: seq<Element>)
      requires Valid()
      modifies this
      ensures Valid() && groupCounter == old(groupCounter) && currentGroupId == old(currentGroupId)
      ensures var palette := destColors.GetOr([LlmColor]);
              r.Ok? <==> && |destinations| > 0 && |palette| > 0 && null !in old(elements) && routerName != ""
                         && FirstBlank(destinations) == |destinations|
      ensures fresh(router)
      ensures PlacedShape(router, routerText, routerName, Rectangle, startX, startY, routerColor.GetOr(CodeColor),
                          currentGroupId)
      ensures r.Err? ==> r.error != NotFound
      ensures r == Err(DivisionByZero) <==> |destinations| == 0 || |destColors.GetOr([LlmColor])| == 0
      ensures r == Err(DivisionByZero) ==> elements == old(elements) + [router, routerText]
      ensures r == Err(NoneEntry) ==>
                && |dests| == |texts|
                && |dests| == 1 + (if null in old(elements) || routerName == "" then 0 else FirstBlank(destinations))
                && elements == old(elements) + [router, routerText] + Pairs(dests, texts)
      ensures r.Ok? ==>
                var n := |destinations|;
                && |dests| == |texts| == |arrows| == n
                && r.value == [router, routerText] + Triples(dests, texts, arrows)
                && elements == old(elements) + [router, routerText] + Pairs(dests, texts)
                && elementCounter == old(elementCounter) + |r.value|
                && FanPlaced(dests, texts, destinations, RoutingSpokes(startX, startY, unit, n),
                             destColors.GetOr([LlmColor]), currentGroupId)
                && FanLinks(router, routerText, dests, texts, arrows, currentGroupId)
    {
      var palette := destColors.GetOr([LlmColor]);
      ghost var prefix := elements;
      var hub, hubText := PlaceHub(Rectangle, startX, startY, routerName, routerColor.GetOr(CodeColor));
      router, routerText, dests, texts, arrows := hub, hubText, [], [], [];
      var n := |destinations|;
      if n == 0 || |palette| == 0 {
        return Err(DivisionByZero), router, routerText, dests, texts, arrows;
      }
      var spokes;
      spokes, dests, texts, arrows := FanOut(hub, hubText, prefix, destinations,
                                             RoutingSpokes(startX, startY, unit, n), palette);
      if spokes.Err? {
        return Err(spokes.error), router, routerText, dests, texts, arrows;
      }
      r := Ok([hub, hubText] + spokes.value);
    }

    /** The arrow from spoke k of the parallel layout into the output, as create_arrow draws
        it. Fails with the list's None, changing nothing, when the list holds one. */
    method OutArrow(ghost input: Element, ghost itext: Element?, ghost prefix: seq<Element?>, items: seq<Element>,
                    ghost texts: seq<Element?>, output: Element, ghost otext: Element?, k: nat)
      returns (r: Result<Element>)
      requires Valid() && |items| == |texts| && k < |items|
      requires elements == prefix + [input, itext] + Pairs(items, texts) + [output, otext]
      requires DistinctIds([input, itext] + Pairs(items, texts) + [output, otext])
      modifies this, items[k], output
      ensures Valid() && groupCounter == old(groupCounter) && currentGroupId == old(currentGroupId)
      ensures elements == old(elements)
      ensures r.Ok? <==> null !in elements
      ensures r.Err? ==>
                && r.error == NoneEntry && elementCounter == old(elementCounter)
                && items[k].boundElements == old(items[k].boundElements)
                && output.boundElements == old(output.boundElements)
      ensures r.Ok? ==>
                && fresh(r.value) && elementCounter == old(elementCounter) + 1
                && DefaultArrow(r.value, items[k], output, currentGroupId)
                && items[k].boundElements == old(items[k].boundElements) + [BoundRef(Arrow, r.value.base.id)]
                && output.boundElements == old(output.boundElements) + [BoundRef(Arrow, r.value.base.id)]
    {
      SinkScan(prefix, input, itext, items, texts, output, otext, k, elements);
      r := CreateArrow(items[k].base.id, output.base.id, None, None, "solid", 2);
    }

    /** The next arrow into the output: spoke |outs| and the output gain its reference; no
        other spoke, and not the input, changes. */
    method SinkLink(ghost input: Element, ghost itext: Element?, ghost prefix: seq<Element?>, items: seq<Element>,
                    ghost texts: seq<Element?>, ghost ins: seq<Element>, output: Element, ghost otext: Element?,
                    outs: seq<Element>)
      returns (r: Result<Element>)
      requires Valid() && |items| == |texts| == |ins| && |outs| < |items|
      requires elements == prefix + [input, itext] + Pairs(items, texts) + [output, otext]
      requires DistinctIds([input, itext] + Pairs(items, texts) + [output, otext])
      requires FanInArrows(items, output, outs, currentGroupId)
      requires FanThrough(items, texts, ins, outs)
      requires output.boundElements == TextRefOf(otext) + ArrowRefs(outs)
      modifies this, items[|outs|], output
      ensures Valid() && groupCounter == old(groupCounter) && currentGroupId == old(currentGroupId)
      ensures elements == old(elements) && input.boundElements == old(input.boundElements)
      ensures r.Ok? <==> null !in elements
      ensures r.Err? ==>
                && r.error == NoneEntry && elementCounter == old(elementCounter)
                && output.boundElements == old(output.boundElements)
      ensures r.Ok? ==>
                && fresh(r.value) && elementCounter == old(elementCounter) + 1
                && FanInArrows(items, output, outs + [r.value], currentGroupId)
                && FanThrough(items, texts, ins, outs + [r.value])
                && output.boundElements == TextRefOf(otext) + ArrowRefs(outs + [r.value])
    {
      var k := |outs|;
      SinkApart(input, itext, items, texts, output, otext, k, k);
      r := OutArrow(input, itext, prefix, items, texts, output, otext, k);
      if r.Err? {
        return;
      }
      var a := r.value;
      FanInArrowsStep(items, output, outs, a, currentGroupId);
      ArrowRefsStep(outs, a);
      forall j | 0 <= j < |items|
        ensures ThroughAt(items, texts, ins, outs + [a], j)
      {
        SinkApart(input, itext, items, texts, output, otext, j, k);
        assert old(ThroughAt(items, texts, ins, outs, j));
        ThroughAtStep(items, texts, ins, outs, a, j, old(items[j].boundElements));
      }
    }

    /** The second half of create_parallel_layout: an arrow from each spoke, in order, into the
        output. Each arrow's scan meets a None exactly when the list holds one, so either the
        first arrow fails, changing nothing, or all succeed. */
    method FanIn(ghost input: Element, ghost itext: Element?, ghost prefix: seq<Element?>, items: seq<Element>,
                 ghost texts: seq<Element?>, ghost ins: seq<Element>, output: Element, ghost otext: Element?)
      returns (r: Result<seq<Element>>)
      requires Valid() && |items| == |texts| == |ins|
      requires elements == prefix + [input, itext] + Pairs(items, texts) + [output, otext]
      requires DistinctIds([input, itext] + Pairs(items, texts) + [output, otext])
      requires FanThrough(items, texts, ins, [])
      requires output.boundElements == TextRefOf(otext)
      modifies this, output, set j | 0 <= j < |items| :: items[j]
      ensures Valid() && groupCounter == old(groupCounter) && currentGroupId == old(currentGroupId)
      ensures elements == old(elements) && input.boundElements == old(input.boundElements)
      ensures r.Ok? <==> |items| == 0 || null !in elements
      ensures r.Err? ==>
                && r.error == NoneEntry && elementCounter == old(elementCounter)
                && output.boundElements == TextRefOf(otext)
      ensures r.Ok? ==>
                var outs := r.value;
                && |outs| == |items| && elementCounter == old(elementCounter) + |outs|
                && FanInArrows(items, output, outs, currentGroupId)
                && FanThrough(items, texts, ins, outs)
                && output.boundElements == TextRefOf(otext) + ArrowRefs(outs)
    {
      var outs: seq<Element> := [];
      assert ArrowRefs(outs) == [];
      var k := 0;
      while k < |items|
        invariant 0 <= k <= |items| && |outs| == k
        invariant Valid() && groupCounter == old(groupCounter) && currentGroupId == old(currentGroupId)
        invariant elements == old(elements) && input.boundElements == old(input.boundElements)
        invariant k > 0 ==> null !in elements
        invariant elementCounter == old(elementCounter) + k
        invariant FanInArrows(items, output, outs, currentGroupId)
        invariant FanThrough(items, texts, ins, outs)
        invariant output.boundElements == TextRefOf(otext) + ArrowRefs(outs)
      {
        var a := SinkLink(input, itext, prefix, items, texts, ins, output, otext, outs);
        if a.Err? {
          return Err(NoneEntry);
        }
        outs := outs + [a.value];
        k := k + 1;
      }
      r := Ok(outs);
    }
    /** The output of the parallel layout: an ellipse (transparent) at (x, y) with its caption,
        appended after the spokes, then an arrow from each spoke, in order, into it. */
    method FanInto(hub: Element, ghost hubText: Element?, ghost prefix: seq<Element?>, items: seq<Element>,
                   ghost texts: seq<Element?>, ghost ins: seq<Element>, outputName: string, x: real, y: real)
      returns (r: Result<seq<Element>>, output: Element, outputText: Element?)
      requires Valid() && |items| == |texts| == |ins|
      requires FanRun(prefix, hub, hubText, items, texts, elements, issued)
      requires |items| > 0 ==> null !in elements
      requires FanBound(items, texts, ins)
      modifies this, set j | 0 <= j < |items| :: items[j]
      ensures Valid() && groupCounter == old(groupCounter) && currentGroupId == old(currentGroupId)
      ensures fresh(output) && PlacedShape(output, outputText, outputName, Ellipse, x, y, Transparent, currentGroupId)
      ensures elements == old(elements) + [output, outputText] && hub.boundElements == old(hub.boundElements)
      ensures r.Ok? <==> |items| == 0 || outputName != ""
      ensures r.Err? ==> r.error == NoneEntry && elementCounter == old(elementCounter) + 1
      ensures r.Ok? ==>
                var outs := r.value;
                && |outs| == |items|
                && elementCounter == old(elementCounter) + 1 + (if outputText != null then 1 else 0) + |outs|
                && FanInArrows(items, output, outs, currentGroupId)
                && FanThrough(items, texts, ins, outs)
                && output.boundElements == TextRefOf(outputText) + ArrowRefs(outs)
    {
      ghost var run := [hub, hubText] + Pairs(items, texts);
      ghost var issued0 := issued;
      output, outputText := CreateDefaultShape(Ellipse, x, y, outputName, Transparent);
      AddElement(output);
      AddElement(outputText);
      RunAppend(run, output, outputText, issued0, issued);
      NullInPair(old(elements), output, outputText);
      FanThroughStart(items, texts, ins);
      r := FanIn(hub, hubText, prefix, items, texts, ins, output, outputText);
    }

    /** create_parallel_layout: the input ellipse (transparent) at (startX, startY) with its
        caption; then, for item i of m, a rectangle at x = startX + 300 and
        y = startY + (i - m/2) * 100, coloured from the palette cyclically (by default the LLM
        and code colours), its caption, and an arrow from the input; then the output ellipse at
        x = startX + 600, y = startY, with its caption; then an arrow from each item, in order,
        into the output. An empty palette with items to place divides by zero once the input
        is placed; an arrow scan that meets a None fails the layout. */
    method CreateParallelLayout(inputName: string, parallelItems: seq<string>, outputName: string,
                                startX: real, startY: real, colors: Option<seq<string>>)
      returns (r: Result<seq<Element?>>, ghost input: Element, ghost inputText: Element?,
               ghost items: seq<Element>, ghost texts: seq<Element?>, ghost ins: seq<Element>,
               ghost output: Element?, ghost outputText: Element?, ghost outs: seq<Element>)
      requires Valid()
      modifies this
      ensures Valid() && groupCounter == old(groupCounter) && currentGroupId == old(currentGroupId)
      ensures var m := |parallelItems|;
              var palette := colors.GetOr([LlmColor, CodeColor]);
              r.Ok? <==> m == 0 || (&& |palette| > 0 && null !in old(elements) && inputName != ""
                                    && FirstBlank(parallelItems) == m && outputName != "")
      ensures fresh(input)
      ensures PlacedShape(input, inputText, inputName, Ellipse, startX, startY, Transparent, currentGroupId)
      ensures r.Err? ==> r.error != NotFound
      ensures r == Err(DivisionByZero) <==> |parallelItems| > 0 && |colors.GetOr([LlmColor, CodeColor])| == 0
      ensures r == Err(DivisionByZero) ==> elements == old(elements) + [input, inputText]
      ensures r == Err(NoneEntry) && output == null ==>
                && |items| == |texts|
                && |items| == 1 + (if null in old(elements) || inputName == "" then 0 else FirstBlank(parallelItems))
                && elements == old(elements) + [input, inputText] + Pairs(items, texts)
      ensures r == Err(NoneEntry) && output != null ==>
                && outputName == "" && |items| == |texts| == |parallelItems|
                && elements == old(elements) + [input, inputText] + Pairs(items, texts) + [output, outputText]
      ensures r.Ok? ==>
                var m := |parallelItems|;
                && output != null
                && |items| == |texts| == |ins| == |outs| == m
                && r.value == [input, inputText] + Triples(items, texts, ins) + [output, outputText] + outs
                && elements == old(elements) + [input, inputText] + Pairs(items, texts) + [output, outputText]
                && elementCounter == old(elementCounter) + |r.value|
                                     - (if inputText == null then 1 else 0) - (if outputText == null then 1 else 0)
                && PlacedShape(output, outputText, outputName, Ellipse, ParallelOutputX(startX), startY,
                               Transparent, currentGroupId)
                && FanPlaced(items, texts, parallelItems, ParallelSpokes(startX, startY, m),
                             colors.GetOr([LlmColor, CodeColor]), currentGroupId)
                && FanArrows(input, items, ins, currentGroupId)
                && input.boundElements == TextRefOf(inputText) + ArrowRefs(ins)
                && FanInArrows(items, output, outs, currentGroupId)
                && FanThrough(items, texts, ins, outs)
                && output.boundElements == TextRefOf(outputText) + ArrowRefs(outs)
    {
      var palette := colors.GetOr([LlmColor, CodeColor]);
      var m := |parallelItems|;
      ghost var prefix := elements;
      var hub, hubText := PlaceHub(Ellipse, startX, startY, inputName, Transparent);
      input, inputText, items, texts, ins, output, outputText, outs := hub, hubText, [], [], [], null, null, [];
      if m > 0 && |palette| == 0 {
        return Err(DivisionByZero), input, inputText, items, texts, ins, output, outputText, outs;
      }
      var spokes, placed;
      spokes, placed, texts, ins := FanOut(hub, hubText, prefix, parallelItems, ParallelSpokes(startX, startY, m),
                                           palette);
      items := placed;
      if spokes.Err? {
        return Err(spokes.error), input, inputText, items, texts, ins, output, outputText, outs;
      }
      var into, sink, sinkText := FanInto(hub, hubText, prefix, placed, texts, ins, outputName,
                                          ParallelOutputX(startX), startY);
      output, outputText := sink, sinkText;
      if into.Err? {
        return Err(into.error), input, inputText, items, texts, ins, output, outputText, outs;
      }
      outs := into.value;
      r := Ok([hub, hubText] + spokes.value + [sink, sinkText] + into.value);
    }
    /** The dispatcher's chain: create_sequential_layout at its defaults, with at least two
        non-empty labels. */
    method DefaultChain(labels: seq<string>)
      returns (r: Result<seq<Element?>>, ghost shapes: seq<Element>, ghost captions: seq<Element?>,
               ghost arrows: seq<Element>)
      requires Valid() && |labels| >= 2 && forall i :: 0 <= i < |labels| ==> labels[i] != ""
      modifies this
      ensures Valid() && groupCounter == old(groupCounter) && currentGroupId == old(currentGroupId)
      ensures r.Ok? <==> null !in old(elements)
      ensures r.Err? ==> r.error == NoneEntry
      ensures r.Err? ==>
                && |shapes| == |captions| == |labels|
                && elements == old(elements) + [shapes[0], shapes[1]]
                && elementCounter == old(elementCounter) + |ShapesAndCaptions(shapes, captions)|
      ensures r.Ok? ==>
                && elementCounter == old(elementCounter) + |r.value|
                && |r.value| == 3 * |labels| - 1 && elements == old(elements)
                && ChainDrawn(labels, shapes, captions, arrows, r.value, currentGroupId)
    {
      r, shapes, captions, arrows := CreateSequentialLayout(labels, 50.0, 50.0, "rectangle", None);
      if r.Ok? {
        ChainResultCount(shapes, captions, labels, Rectangle, 50.0, 50.0, [LlmColor], currentGroupId);
      }
    }

    /** The dispatcher's router: create_routing_layout at its defaults, with non-empty labels. */
    method DefaultRouting(routerName: string, destinations: seq<string>, unit: (nat, nat) -> Point)
      returns (r: Result<seq<Element?>>, ghost router: Element, ghost routerText: Element?,
               ghost dests: seq<Element>, ghost texts: seq<Element?>, ghost arrows: seq<Element>)
      requires Valid() && routerName != "" && |destinations| > 0
      requires forall i :: 0 <= i < |destinations| ==> destinations[i] != ""
      modifies this
      ensures Valid() && groupCounter == old(groupCounter) && currentGroupId == old(currentGroupId)
      ensures r.Ok? <==> null !in old(elements)
      ensures r.Err? ==> r.error == NoneEntry
      ensures r.Err? ==>
                && |dests| == |texts| == 1
                && elements == old(elements) + [router, routerText] + Pairs(dests, texts)
      ensures r.Ok? ==>
                && elementCounter == old(elementCounter) + |r.value|
                && |r.value| == 2 + 3 * |destinations|
                && |elements| == |old(elements)| + 2 + 2 * |destinations|
                && |dests| == |texts| && elements == old(elements) + [router, routerText] + Pairs(dests, texts)
                && RoutingDrawn(routerName, destinations, unit, router, routerText, dests, texts, arrows,
                                r.value, currentGroupId)
    {
      r, router, routerText, dests, texts, arrows :=
        CreateRoutingLayout(routerName, destinations, 50.0, 150.0, None, None, unit);
    }

    /** The dispatcher's parallel layout: create_parallel_layout at its defaults, with non-empty labels. */
    method DefaultParallel(inputName: string, names: seq<string>, outputName: string)
      returns (r: Result<seq<Element?>>, ghost input: Element, ghost inputText: Element?,
               ghost items: seq<Element>, ghost texts: seq<Element?>, ghost ins: seq<Element>,
               ghost output: Element?, ghost outputText: Element?, ghost outs: seq<Element>)
      requires Valid() && inputName != "" && outputName != "" && |names| > 0
      requires forall i :: 0 <= i < |names| ==> names[i] != ""
      modifies this
      ensures Valid() && groupCounter == old(groupCounter) && currentGroupId == old(currentGroupId)
      ensures r.Ok? <==> null !in old(elements)
      ensures r.Err? ==> r.error == NoneEntry
      ensures r.Err? ==>
                && output == null && |items| == |texts| == 1
                && elements == old(elements) + [input, inputText] + Pairs(items, texts)
      ensures r.Ok? ==>
                && elementCounter == old(elementCounter) + |r.value|
                && |r.value| == 4 + 4 * |names|
                && |elements| == |old(elements)| + 4 + 2 * |names|
                && |items| == |texts|
                && elements == old(elements) + [input, inputText] + Pairs(items, texts) + [output, outputText]
                && ParallelDrawn(inputName, names, outputName, input, inputText, items, texts, ins,
                                 output, outputText, outs, r.value, currentGroupId)
    {
      r, input, inputText, items, texts, ins, output, outputText, outs :=
        CreateParallelLayout(inputName, names, outputName, 50.0, 300.0, None);
    }

    /** create_flowchart_from_description: one of four fixed diagrams, picked by the keyword
        test on the lower-cased description: the chain "Step 1".."Step 4", the router "Router"
        with "LLM1".."LLM3", the parallel layout "Input" / "Process A".."Process C" / "Output",
        or the chain "Input", "Process", "Output"; each at the layout's default position and
        colours. All labels are non-empty, so the only failure is an arrow scan meeting a None
        that was already in the element list. */
    method CreateFlowchartFromDescription(description: string, unit: (nat, nat) -> Point)
      returns (r: Result<seq<Element?>>, ghost drawing: Drawing)
      requires Valid()
      modifies this
      ensures Valid() && groupCounter == old(groupCounter) && currentGroupId == old(currentGroupId)
      ensures r.Ok? <==> null !in old(elements)
      ensures r.Err? ==> r.error == NoneEntry
      ensures r.Ok? ==>
                && elementCounter == old(elementCounter) + |r.value|
                && |r.value| == (match Classify(description)
                                 case Sequential => 11 case Routing => 11 case Parallel => 16 case Fallback => 8)
                && |elements| == |old(elements)| + (match Classify(description)
                                                    case Sequential => 0 case Routing => 8
                                                    case Parallel => 10 case Fallback => 0)
                && Draws(Classify(description), drawing, unit, r.value, currentGroupId)
      ensures Leaves(Classify(description), drawing, r.Ok?, old(elements), elements)
    {
      match Classify(description)
      case Sequential =>
        ghost var shapes, captions, arrows;
        r, shapes, captions, arrows := DefaultChain(StepLabels);
        drawing := ChainDrawing(shapes, captions, arrows);
      case Routing =>
        ghost var router, routerText, dests, texts, arrows;
        r, router, routerText, dests, texts, arrows := DefaultRouting(RouterLabel, DestinationLabels, unit);
        drawing := HubDrawing(router, routerText, dests, texts, arrows);
      case Parallel =>
        ghost var input, inputText, items, texts, ins, output, outputText, outs;
        r, input, inputText, items, texts, ins, output, outputText, outs :=
          DefaultParallel(InputLabel, ProcessLabels, OutputLabel);
        drawing := FanDrawing(input, inputText, items, texts, ins, output, outputText, outs);
      case Fallback =>
        ghost var shapes, captions, arrows;
        r, shapes, captions, arrows := DefaultChain(FallbackLabels);
        drawing := ChainDrawing(shapes, captions, arrows);
    }
  }

  /** The document depends on the element list alone: two builders with the same list
      produce the same document, whatever their counters, groups and titles. */
  lemma DocumentOfList(a: ExcalidrawAgent, b: ExcalidrawAgent, titleA: string, titleB: string)
    requires a.elements == b.elements
    ensures a.GenerateExcalidrawJson(titleA) == b.GenerateExcalidrawJson(titleB)
  {
  }

  /** Once the scan has crashed on a prefix, it stays crashed on every longer prefix. */
  lemma {:induction false} ScanPrefixCrash(es: seq<Element?>, i: nat, startId: string, endId: string)
    requires i <= |es| && Scan(es[..i], startId, endId).Crash?
    ensures Scan(es, startId, endId).Crash?
    decreases |es| - i
  {
    if i < |es| {
      assert es[..i + 1][..i] == es[..i];
      ScanPrefixCrash(es, i + 1, startId, endId);
    } else {
      assert es[..i] == es;
    }
  }
}
