/** The element records of an Excalidraw document: the common fields every
    element carries, the parts specific to text and arrows, and the element
    object itself, whose only field changed after creation is its list of
    bound-element references. */
module Elements {
  import opened Wrappers
  import opened Ids

  datatype Kind = Text | Rectangle | Ellipse | Arrow

  /** The "type" string written for each kind. */
  function KindName(k: Kind): string
  {
    match k
    case Text => "text"
    case Rectangle => "rectangle"
    case Ellipse => "ellipse"
    case Arrow => "arrow"
  }

  // Colours of the builder's palette
  const LlmColor: string := "#ffec99"
  const CodeColor: string := "#a5d8ff"
  const ProcessColor: string := "#c2f0c2"
  const Transparent: string := "transparent"
  const DefaultStroke: string := "#1e1e1e"

  // Fixed sizes and spacings of the builder
  const DefaultSpacingX: real := 150.0
  const DefaultSpacingY: real := 100.0
  const DefaultTextSize: int := 16
  const DefaultElementWidth: real := 120.0
  const DefaultElementHeight: real := 60.0

  /** The "updated" timestamp every element is offset from. */
  const BaseTimestamp: int := 1757460000000

  datatype Point = Point(x: real, y: real)

  /** One entry of an element's "boundElements": {"type": kind, "id": id}. */
  datatype BoundRef = BoundRef(kind: Kind, id: string)

  /** An arrow's "startBinding" / "endBinding". */
  datatype Binding = Binding(elementId: string, focus: int, gap: int)

  /** The fields _create_base_element writes for every element. */
  datatype Base = Base(
    id: string, kind: Kind,
    x: real, y: real, width: real, height: real, angle: real,
    strokeColor: string, backgroundColor: string, fillStyle: string,
    strokeWidth: int, strokeStyle: string, roughness: int, opacity: int,
    groupIds: seq<string>, frameId: Option<string>, index: string,
    roundness: Option<int>,   // {"type": t} or None
    seed: int, version: int, versionNonce: int, isDeleted: bool,
    updated: int, link: Option<string>, locked: bool)

  /** The fields a factory adds on top of the base ones. */
  datatype Extra =
    | Shape
    | TextPart(text: string, fontSize: int, fontFamily: int, textAlign: string,
               verticalAlign: string, containerId: Option<string>, originalText: string,
               autoResize: bool, lineHeight: real)
    | ArrowPart(startBinding: Binding, endBinding: Binding, lastCommittedPoint: Option<Point>,
                startArrowhead: Option<string>, endArrowhead: Option<string>, points: seq<Point>)

  /** An element record. Shared by reference: a layout returns the same object
      whose boundElements a later arrow extends. */
  class Element {
    const base: Base
    const extra: Extra
    var boundElements: seq<BoundRef>

    constructor (base: Base, extra: Extra)
      ensures this.base == base && this.extra == extra && boundElements == []
    {
      this.base := base;
      this.extra := extra;
      boundElements := [];
    }
  }

  /** Python truthiness of an optional string: present and non-empty. */
  predicate Truthy(s: Option<string>)
  {
    s.Some? && s.value != ""
  }

  /** The "groupIds" of a new element: the active group, if there is one. */
  function GroupTag(current: Option<string>): (r: seq<string>)
    ensures |r| <= 1
    ensures r == [] <==> !Truthy(current)
    ensures r != [] ==> r[0] == current.value
  {
    if Truthy(current) then [current.value] else []
  }

  /** The record _create_base_element builds when the element counter is `counter`
      and `group` is the active group. */
  function BaseRecord(kind: Kind, x: real, y: real, width: real, height: real,
                      id: string, counter: nat, group: Option<string>): (r: Base)
    ensures r.id == id && r.kind == kind && r.x == x && r.y == y && r.width == width && r.height == height
    ensures r.groupIds == GroupTag(group) && r.version == 1 && !r.isDeleted && r.roundness == None
    ensures && r.angle == 0.0 && r.strokeColor == DefaultStroke && r.backgroundColor == Transparent
            && r.fillStyle == "solid" && r.strokeWidth == 2 && r.strokeStyle == "solid"
            && r.roughness == 1 && r.opacity == 100
            && r.frameId == None && r.link == None && !r.locked
    ensures r.seed == counter && r.versionNonce == 1000 * r.seed && r.updated == BaseTimestamp + r.seed
    ensures |r.index| > 1 && r.index[0] == 'a' && DigitsValue(r.index[1..]) == counter
  {
    DigitsRoundTrip(counter);
    assert ("a" + NatToString(counter))[1..] == NatToString(counter);
    Base(id, kind, x, y, width, height, 0.0,
         DefaultStroke, Transparent, "solid", 2, "solid", 1, 100,
         GroupTag(group), None, "a" + NatToString(counter), None,
         counter, 1, counter * 1000, false, BaseTimestamp + counter, None, false)
  }

  /** Estimated width of a text: 0.6 of the font size per character. */
  function TextWidth(text: string, fontSize: int): (w: real)
  {
    |text| as real * (fontSize as real * 0.6)
  }

  /** Estimated height of one line of text: 1.2 times the font size. */
  function TextHeight(fontSize: int): (h: real)
  {
    fontSize as real * 1.2
  }

  /** Text boxes are never negative for a non-negative font size; a text has no width exactly
      when it is empty or its font size is 0; a line is taller than its font size. */
  lemma TextMetrics(text: string, fontSize: int)
    ensures fontSize >= 0 ==> TextWidth(text, fontSize) >= 0.0
    ensures TextWidth(text, fontSize) == 0.0 <==> |text| == 0 || fontSize == 0
    ensures TextHeight(fontSize) > 0.0 <==> fontSize > 0
    ensures fontSize > 0 ==> TextHeight(fontSize) > fontSize as real
  {
  }

  /** The bound-element entry a shape gets for its label, if it has one. */
  function TextRefOf(t: Element?): seq<BoundRef>
  {
    if t == null then [] else [BoundRef(Text, t.base.id)]
  }

  /** The bound-element entries a sequence of arrows leaves on an element they all touch, in order. */
  function ArrowRefs(arrows: seq<Element>): (r: seq<BoundRef>)
    ensures |r| == |arrows|
    ensures forall i :: 0 <= i < |arrows| ==> r[i] == BoundRef(Arrow, arrows[i].base.id)
  {
    if arrows == [] then [] else ArrowRefs(arrows[..|arrows| - 1]) + [BoundRef(Arrow, arrows[|arrows| - 1].base.id)]
  }

  /** Right-middle point of an element's bounding box: where an arrow leaves it by default. */
  function RightMiddle(e: Element): Point
  {
    Point(e.base.x + e.base.width, e.base.y + e.base.height / 2.0)
  }

  /** Left-middle point of an element's bounding box: where an arrow enters it by default. */
  function LeftMiddle(e: Element): Point
  {
    Point(e.base.x, e.base.y + e.base.height / 2.0)
  }

  function Abs(r: real): real
  {
    if r < 0.0 then -r else r
  }

  /** An arrow as create_arrow draws it from point sp to point ep, bound to s at its start
      and e at its end: its box spans the two points and its path runs from (0, 0) to ep - sp. */
  ghost predicate ArrowFrom(a: Element, s: Element, e: Element, sp: Point, ep: Point, group: Option<string>)
  {
    && a.base.kind == Arrow
    && a.base.groupIds == GroupTag(group)
    && a.base.x == sp.x && a.base.y == sp.y
    && a.base.width == Abs(ep.x - sp.x) && a.base.height == Abs(ep.y - sp.y)
    && a.extra == ArrowPart(Binding(s.base.id, 0, 1), Binding(e.base.id, 0, 1), None, None, Some("arrow"),
                            [Point(0.0, 0.0), Point(ep.x - sp.x, ep.y - sp.y)])
  }
}
