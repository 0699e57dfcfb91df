# ExcalidrawAgent in Dafny

A model of the diagram builder `ExcalidrawAgent` (test/excalidraw_agent.py). The builder
produces Excalidraw documents. Its state is a list of element records, an element counter,
a group counter and the currently active group. It offers:

- id and group allocation ("prefix-n", "group-k", "name-group-k");
- the element factories: the base record, text, and rectangle/ellipse with a bound caption;
- `create_arrow`, which finds both endpoints in the element list and appends a back-reference
  to each of them in place;
- the three canned layouts: a sequential chain, a routing hub with spokes, and a parallel
  fan-out/fan-in;
- the keyword dispatcher `create_flowchart_from_description`;
- the document wrapper `generate_excalidraw_json`, and `clear`.

The builder works by changing state step by step, so it is a Dafny class,
`Agent.ExcalidrawAgent`. Its fields are `elements` (a `seq<Element?>`), `elementCounter`,
`groupCounter` and `currentGroupId`. A ghost `issued` lists the ids handed out since the
builder was made or last cleared, and `Valid()` ties it to the counter.

Elements are heap objects of class `Elements.Element`, because the source shares them. A shape
that a layout returns is the same object whose `boundElements` a later `create_arrow` extends.
An element's fixed fields are the `const`s `base` and `extra`; `boundElements` is its only
`var`. A `null` entry in `elements` is the Python `None` that the routing and parallel layouts
append for a missing caption.

Failures are `Result` values carrying the source's exception:
- `NotFound`: the ValueError of `create_arrow`.
- `NoneEntry`: the TypeError raised when the endpoint scan subscripts a `None`.
- `DivisionByZero`: an empty palette, or an empty destination list.

Like Python, a failing layout leaves behind whatever it had already appended. Its contract
states that partial state.

Modules:
- `Wrappers`: Option, Failure and Result.
- `Ids`: id formatting; reading back the counter value from an id.
- `Elements`: records, kinds, colours, sizes, text metrics and bound references.
- `Lookup`: the endpoint scan of `create_arrow`, as a function with its lemmas.
- `Layout`: positions, list shapes and the predicates of the sequential chain.
- `Fan`: the hub-and-spoke structure shared by the routing and parallel layouts.
- `Keywords`: the lower-casing and substring test of the dispatcher.
- `Agent`: the class.

## Model

| member | source | states |
|---|---|---|
| Ids.DigitsRoundTrip | test/excalidraw_agent.py:125 | reading back the decimal form of a number gives the number |
| Ids.IdNumberOfFormatId | test/excalidraw_agent.py:122-125 | "prefix-n" remembers n, whatever the prefix (even with dashes) |
| Ids.FormatId | test/excalidraw_agent.py:125 | an id is the prefix, a dash, then the decimal digits of the counter value, which read back to that value |
| Ids.GroupId | test/excalidraw_agent.py:392-394 | a group id ends with "group-k"; it starts with "name-" when a name is given and is exactly as long as "group-k" otherwise |
| Ids.FormatIdInjective | test/excalidraw_agent.py:122-125 | two generated ids are equal exactly when prefix and counter both agree |
| Ids.GroupIdNumber | test/excalidraw_agent.py:392-394 | a group id, named or not, is non-empty and carries its group counter value |
| Elements.BaseRecord | test/excalidraw_agent.py:138-165 | the record keeps the given id, kind, position and size; groupIds follows the active group; version 1, not deleted, no roundness; seed is the counter, versionNonce 1000 times it, updated the base timestamp plus it; index is "a" then the counter's digits; the styling defaults: angle 0, stroke #1e1e1e, transparent background, solid fill, width 2, solid stroke, roughness 1, opacity 100, no frame, no link, unlocked |
| Elements.TextMetrics | test/excalidraw_agent.py:185-187 | the estimated width (0.6 of the font size per character) is never negative and is 0 exactly for an empty text or a zero font size; the height (1.2 times the font size) is positive exactly for a positive size and then exceeds it |
| Elements.GroupTag | test/excalidraw_agent.py:153 | groupIds is [current] when a group is active (non-empty), [] otherwise |
| Elements.ArrowRefs | test/excalidraw_agent.py:371-378 | the references a run of arrows leaves on an endpoint: one {arrow, id} per arrow, in order |
| Lookup.Scan | test/excalidraw_agent.py:315-319 | the scan crashes exactly when the list holds a None; a start it finds is in the list and has the start id; an end it finds is in the list, has the end id, and the two ids differ |
| Lookup.LastWithIdFound | test/excalidraw_agent.py:315-319 | the last element with an id is found exactly when one is present, and it has that id |
| Lookup.LastWithIdAt | test/excalidraw_agent.py:315-319 | an element with no later namesake is the one the scan keeps |
| Lookup.ScanSpec | test/excalidraw_agent.py:312-322 | the scan crashes exactly when the list holds a None; otherwise start is the last element with the start id and end is the last with the end id, or nothing when the ids are equal (elif) |
| Lookup.SelfArrowNeverFound | test/excalidraw_agent.py:315-322 | an arrow from an id to itself never finds its end |
| Lookup.ScanAppendedPair | test/excalidraw_agent.py:452-458 | after appending two shapes with different ids to a list without None, the scan finds exactly those two |
| Lookup.DistinctIdsAppend | test/excalidraw_agent.py:513-515 | appending an element with a new id keeps all ids distinct |
| Lookup.ScanInDistinct | test/excalidraw_agent.py:518 | within a run of distinct ids at the end of a list without None, the scan between two of them finds exactly those two |
| Agent.ExcalidrawAgent.GenerateId | test/excalidraw_agent.py:122-125 | the counter advances by 1; the id is "prefix-counter", was never issued before, and is recorded as issued |
| Agent.ExcalidrawAgent.GenerateGroupId | test/excalidraw_agent.py:127-130 | the group counter advances by 1; the id is "group-k"; nothing else changes |
| Agent.ExcalidrawAgent.StartGroup | test/excalidraw_agent.py:382-397 | the id is GroupId(name, k) carrying k; it becomes current, so new elements get groupIds == [id] |
| Agent.ExcalidrawAgent.EndGroup | test/excalidraw_agent.py:399-401 | no group is current afterwards, so new elements get groupIds == [] |
| Agent.ExcalidrawAgent.AddElement | test/excalidraw_agent.py:403-405 | the element (or None) is appended; nothing else changes |
| Agent.ExcalidrawAgent.Clear | test/excalidraw_agent.py:635-640 | the list is empty, both counters are 0, no group is active |
| Agent.ExcalidrawAgent.CreateBaseElement | test/excalidraw_agent.py:132-165 | the common record; a generated "element-n" id only when none is given (counter +1, id issued); index, seed, versionNonce and updated follow the counter; groupIds follows the active group |
| Agent.ExcalidrawAgent.CreateTextElement | test/excalidraw_agent.py:167-202 | width len·size·0.6, height size·1.2 (default size 16); text and originalText equal the argument; containerId as given; center/middle alignment exactly when a container is given, else left/top |
| Agent.ShapeRecord | test/excalidraw_agent.py:226-231 | a shape's record is the base record with only the background colour and the roundness (3 for a rectangle, 2 for an ellipse) replaced |
| Agent.ExcalidrawAgent.CreateShape | test/excalidraw_agent.py:204-292 | "rect-n"/"ellipse-n" with width 120, height 60 and a transparent background by default; roundness 3 or 2; a caption text exactly when the label is non-empty, centred, with containerId = shape id and boundElements == [that text]; none and [] otherwise; the element list is untouched |
| Agent.ExcalidrawAgent.AddCaption | test/excalidraw_agent.py:233-245 | the caption is centred in the shape and bound to it, and the shape gains exactly one text reference |
| Agent.ExcalidrawAgent.CreateDefaultShape | test/excalidraw_agent.py:435-441 | a default-sized shape at (x, y) with the given colour, a "rect-n"/"ellipse-n" id and the kind's roundness; its caption exists exactly when the label is non-empty, is centred on the shape and sized from its length; its ids are newly issued |
| Agent.ExcalidrawAgent.FindEndpoints | test/excalidraw_agent.py:311-319 | the loop computes the scan: crash exactly on a None, otherwise the last matches (elif: no end when the ids are equal) |
| Agent.ExcalidrawAgent.CreateArrow | test/excalidraw_agent.py:294-380 | fails (ValueError, or TypeError on a None) before the counter moves, with every element unchanged; on success a new "arrow-n" from the right middle of the start to the left middle of the end, box \|dx\|×\|dy\|, points [(0,0),(dx,dy)], bindings naming both ids, one reference appended to each endpoint, the list unchanged |
| Agent.ExcalidrawAgent.DrawArrow | test/excalidraw_agent.py:324-380 | with both endpoints found: a new, never-issued "arrow-n" spanning the two points, bound to both endpoints, with exactly one reference appended to each endpoint; the list is unchanged |
| Agent.ExcalidrawAgent.PlaceNext | test/excalidraw_agent.py:431-448 | one first-pass iteration: shape i at SequentialX(i) in colour i mod the palette, result list and bound references extended |
| Agent.ExcalidrawAgent.PlaceChain | test/excalidraw_agent.py:425-448 | the first pass fails exactly when there are items and no colours; otherwise every item is placed and the counter grows by the result's length |
| Agent.ExcalidrawAgent.LinkPair | test/excalidraw_agent.py:452-459 | the temporary appends and the arrow: succeeds exactly when the list held no None, and then draws the default arrow between the two shapes |
| Agent.ExcalidrawAgent.DropTemporary | test/excalidraw_agent.py:461-465 | the two removes restore the list as it was before the appends |
| Agent.ExcalidrawAgent.LinkNext | test/excalidraw_agent.py:451-465 | one second-pass iteration keeps every arrow linking shape i to shape i+1, and every shape's references complete |
| Agent.ExcalidrawAgent.LinkChain | test/excalidraw_agent.py:450-465 | n−1 arrows (none for n ≤ 1), arrow i from shape i to i+1; every shape holds its caption's reference and those of its arrows; the list is unchanged; a None in the list fails on the first arrow, leaving the first two shapes appended |
| Agent.ExcalidrawAgent.CreateSequentialLayout | test/excalidraw_agent.py:407-467 | a DivisionByZero exactly when there are items and no colours, with the state untouched; a TypeError on a None with two or more items, after the first pass, with the first two shapes left appended and the counter advanced by the first pass's entries; otherwise the result is shapes-and-captions then arrows, shape i at x = startX + i·270 and y = startY in colour i mod palette, the element list unchanged, the counter grown by the result's length |
| Layout.SequentialNoOverlap | test/excalidraw_agent.py:448 | chain shapes never overlap: each ends before any later one starts |
| Layout.SequentialGap | test/excalidraw_agent.py:448 | consecutive chain shapes are exactly one spacing (150) apart |
| Layout.CaptionCount | test/excalidraw_agent.py:444-445 | at most one caption per item; one for every item exactly when no label is empty |
| Layout.ChainResultLength | test/excalidraw_agent.py:443-447 | the first pass lists every shape and exactly the captions that exist |
| Layout.ChainResultCount | test/excalidraw_agent.py:443-447 | a finished chain lists n elements plus one per non-empty label |
| Layout.ChainArrowsStraight | test/excalidraw_agent.py:325-366 | every chain arrow is horizontal, 150 wide, from (x_i + 120, y + 30), points [(0,0),(150,0)], bound to shapes i and i+1 |
| Layout.ChainBoundRefs | test/excalidraw_agent.py:371-378 | at the end shape i holds its caption's reference, then the arrow in (if i > 0), then the arrow out (if i < n−1) |
| Layout.ChainArrowCount | test/excalidraw_agent.py:451-459 | the chain's result holds exactly as many arrows as were drawn (n−1) |
| Layout.ChainArrowsStep | test/excalidraw_agent.py:458 | drawing the next arrow keeps all arrows linking consecutive shapes |
| Layout.BoundAtStep | test/excalidraw_agent.py:371-378 | the next arrow's reference extends exactly the two shapes it links |
| Layout.ChainPlacedStep | test/excalidraw_agent.py:431-448 | placing the next item keeps the chain placed |
| Layout.FirstIndex | test/excalidraw_agent.py:462-465 | the position list.remove looks for: an occurrence of x with none before it |
| Layout.RemoveFirst | test/excalidraw_agent.py:462-465 | list.remove drops exactly the first occurrence and keeps the rest in order; the absent case (ValueError in Python) never arises, because both calls are guarded by `in` |
| Layout.DropPair | test/excalidraw_agent.py:461-465 | removing the two temporarily appended shapes, first the start then the end, restores the list |
| Layout.RemoveFirstAppended | test/excalidraw_agent.py:452-465 | removing an appended shape that was not in the list before undoes the append |
| Layout.RoutingSpokes | test/excalidraw_agent.py:501-507 | destination i of n sits at the router plus 225 times the direction for angle i·2π/n |
| Layout.RoutingOnCircle | test/excalidraw_agent.py:501-507 | with a unit direction, every destination lies 225 from the router |
| Layout.ParallelSpokes | test/excalidraw_agent.py:553-557 | item i of m sits at x = startX + 300, y = startY + (i − m/2)·100, with real division |
| Layout.ParallelItemSide | test/excalidraw_agent.py:557 | item i of m is level with the input exactly when 2i = m, above it exactly when 2i < m, below it otherwise |
| Layout.ParallelFanOffCentre | test/excalidraw_agent.py:557 | mirrored items average to startY − 50: the fan is centred half a spacing above the input |
| Layout.Pairs | test/excalidraw_agent.py:513-515 | two list entries per spoke |
| Layout.Triples | test/excalidraw_agent.py:513-519 | three result entries per spoke |
| Layout.PairsAt | test/excalidraw_agent.py:513-515 | spoke i is at 2i, its caption slot right after it |
| Layout.TriplesAt | test/excalidraw_agent.py:513-519 | spoke i is at 3i, then its caption slot, then its arrow |
| Layout.ArrowCountAppend | test/excalidraw_agent.py:519 | counting arrows distributes over concatenation |
| Fan.FirstBlank | test/excalidraw_agent.py:496-498 | the first empty label, or the count when none is empty |
| Fan.BeforeFirstBlank | test/excalidraw_agent.py:496-498 | no label before the first empty one is empty |
| Fan.RunAppend | test/excalidraw_agent.py:513-515 | appending a spoke and its caption slot with new ids keeps all ids distinct and issued |
| Fan.NullInPair | test/excalidraw_agent.py:496-498 | appending a shape and its caption slot adds a None exactly when the caption is missing |
| Fan.FanStart | test/excalidraw_agent.py:493-498 | the hub and its caption slot start a run of distinct, issued ids |
| Fan.SpokeAppend | test/excalidraw_agent.py:510-515 | appending a placed spoke keeps the run and the placement, and adds a None exactly when its caption is missing |
| Fan.FanPlacedStep | test/excalidraw_agent.py:504-515 | placing the next spoke keeps all spokes placed |
| Fan.FanArrowsStep | test/excalidraw_agent.py:517-519 | the next arrow from the hub keeps every arrow running from the hub to its own spoke |
| Fan.RunIndex | test/excalidraw_agent.py:513-515 | spoke j of the run is at 2 + 2j, its caption right after it |
| Fan.SpokeScan | test/excalidraw_agent.py:518 | the scan from the hub to the new spoke crashes exactly when the list holds a None, and otherwise finds exactly those two |
| Fan.SpokeApart | test/excalidraw_agent.py:518 | the hub and every spoke are different elements |
| Fan.FanInArrowsStep | test/excalidraw_agent.py:582-584 | the next arrow into the output keeps every such arrow running from its own spoke |
| Fan.FanThroughStart | test/excalidraw_agent.py:572-582 | before the second loop each item holds exactly its caption's and its incoming arrow's references |
| Fan.ThroughAtStep | test/excalidraw_agent.py:582-584 | the next arrow into the output extends exactly its own item's references |
| Fan.SinkIndex | test/excalidraw_agent.py:548-579 | positions of the input, the items and the output in the parallel run |
| Fan.SinkScan | test/excalidraw_agent.py:583 | the scan from item k to the output crashes exactly on a None, and otherwise finds exactly those two |
| Fan.SinkApart | test/excalidraw_agent.py:583 | the input, the output and every item are pairwise different elements |
| Fan.TriplesArrowCount | test/excalidraw_agent.py:513-519 | the result triples hold one arrow per spoke |
| Fan.FanKinds | test/excalidraw_agent.py:510-519 | spokes are rectangles, captions are texts, and every fan arrow is bound from the hub to its own spoke |
| Fan.IntoKinds | test/excalidraw_agent.py:582-584 | every arrow into the output is bound from its own item to the output |
| Fan.RoutingArrows | test/excalidraw_agent.py:501-521 | the routing result holds exactly k arrows for k destinations, every one starting at the router and ending at its destination |
| Fan.ParallelArrows | test/excalidraw_agent.py:553-586 | the parallel result holds exactly 2m arrows: input→item i, then item i→output |
| Agent.ExcalidrawAgent.PlaceHub | test/excalidraw_agent.py:492-498 | the hub shape and its caption slot are appended; a None is added exactly when the label is empty |
| Agent.ExcalidrawAgent.SpokePlace | test/excalidraw_agent.py:504-515 | one spoke's rectangle at its position in colour i mod palette, appended with its caption slot |
| Agent.ExcalidrawAgent.HubArrow | test/excalidraw_agent.py:518 | the arrow from the hub to the new spoke: a TypeError exactly when the list holds a None (nothing changes), otherwise the default arrow with one reference on each end |
| Agent.ExcalidrawAgent.SpokeLink | test/excalidraw_agent.py:517-519 | linking the new spoke keeps every fan arrow, the hub's references and every spoke's references complete |
| Agent.ExcalidrawAgent.FanStep | test/excalidraw_agent.py:504-519 | one loop iteration of the routing layout, failing exactly at the first None |
| Agent.ExcalidrawAgent.FanOut | test/excalidraw_agent.py:504-519 | the loop succeeds exactly when there are no names, or the list held no None and no name is empty; on success the result is the triples, every spoke is placed, arrow i runs hub→spoke i, the hub holds its caption's and all arrows' references; on failure it stops after the spoke that met the None |
| Agent.ExcalidrawAgent.CreateRoutingLayout | test/excalidraw_agent.py:469-521 | the router at (startX, startY) in the router colour (default CODE); a DivisionByZero, after the router is appended, exactly when there are no destinations or no colours; a TypeError when a None is met; otherwise [router, text] + triples, destination i placed on RoutingSpokes in colour i mod palette, all arrows from the router, the counter grown by the result's length |
| Agent.ExcalidrawAgent.OutArrow | test/excalidraw_agent.py:583 | the arrow from item k into the output, failing exactly when the list holds a None |
| Agent.ExcalidrawAgent.SinkLink | test/excalidraw_agent.py:582-584 | the next arrow into the output extends exactly its item's and the output's references |
| Agent.ExcalidrawAgent.FanIn | test/excalidraw_agent.py:581-584 | one arrow per item into the output, in order, or a TypeError when the list holds a None |
| Agent.ExcalidrawAgent.FanInto | test/excalidraw_agent.py:572-584 | the transparent output ellipse and its caption are appended; the second loop succeeds exactly when there are no items or the output's label is non-empty |
| Agent.ExcalidrawAgent.CreateParallelLayout | test/excalidraw_agent.py:523-586 | the input ellipse at (startX, startY); a DivisionByZero, after the input is appended, exactly when there are items and no colours; TypeError on a None; otherwise [input, text] + triples + [output, text] + arrows into the output; item i at ParallelSpokes in colour i mod palette (default LLM, CODE); the output at startX + 600 with the input's y; arrows input→item i and item i→output; every reference list complete; the counter grown by the result's length less one for each missing caption of the input and the output |
| Keywords.Lower | test/excalidraw_agent.py:656 | lower-casing keeps the length and maps each character |
| Keywords.LowerIdempotent | test/excalidraw_agent.py:656 | lower-casing twice is lower-casing once |
| Keywords.ContainsAt | test/excalidraw_agent.py:658 | `w in s` holds exactly when w occurs at some position of s |
| Keywords.Mentioned | test/excalidraw_agent.py:656-668 | a keyword written anywhere, in any case, is found by the test |
| Keywords.ContainsWritten | test/excalidraw_agent.py:656-658 | the substring test on the lower-cased description finds a word exactly when the word is written somewhere in it, in any case |
| Keywords.Classify | test/excalidraw_agent.py:656-677 | the chain exactly when "sequential" or "chain" is written (in any case); routing only when "routing" or "router" is; parallel only when "parallel" is; the default exactly when none of the five words is |
| Keywords.ClassifyIgnoresCase | test/excalidraw_agent.py:656 | a description and its lower-cased form pick the same layout |
| Keywords.ClassifyPriority | test/excalidraw_agent.py:658-677 | "sequential"/"chain" always picks the chain; "routing"/"router" picks chain or routing; "parallel" never falls back |
| Agent.ExcalidrawAgent.DefaultChain | test/excalidraw_agent.py:658-661 | the chain at its defaults (`ChainDrawn`): rectangle i labelled item i at (50 + 270i, 50) in the LLM colour with its caption, arrow i from shape i to shape i+1, every reference list complete; 3n−1 entries, the list unchanged; it fails exactly on a None already in the list, leaving the first two shapes appended and the counter advanced by the first pass |
| Agent.ExcalidrawAgent.DefaultRouting | test/excalidraw_agent.py:663-666 | the router at its defaults (`RoutingDrawn`): the router rectangle at (50, 150) in the code colour, destination i on RoutingSpokes(50, 150) in the LLM colour, one arrow from the router to each, every reference list complete; 2 + 3k entries; the list gains the router and each destination with their captions; it fails exactly on a None already in the list, leaving the router and the first destination appended |
| Agent.ExcalidrawAgent.DefaultParallel | test/excalidraw_agent.py:668-672 | the parallel layout at its defaults (`ParallelDrawn`): input ellipse at (50, 300), item i on ParallelSpokes(50, 300) in the LLM and code colours alternately, output ellipse at (650, 300), arrows input→item i and item i→output, every reference list complete; 4 + 4m entries; the list gains the input, each item and the output with their captions; it fails exactly on a None already in the list, leaving the input and the first item appended |
| Agent.ExcalidrawAgent.CreateFlowchartFromDescription | test/excalidraw_agent.py:642-677 | fails exactly when the list already holds a None; otherwise it draws (`Draws`) the chain "Step 1".."Step 4", the router "Router" with "LLM1".."LLM3", the parallel layout "Input" / "Process A".."Process C" / "Output", or the chain "Input", "Process", "Output", as the keyword test picks, each at its layout's default origin and colours: 11, 11, 16 or 8 entries. The list (`Leaves`) is unchanged for a chain, and otherwise gains the shapes with their captions; on failure it holds what the picked layout appended before the failing arrow |
| Agent.ExcalidrawAgent.GenerateExcalidrawJson | test/excalidraw_agent.py:588-620 | type "excalidraw", version 2, the fixed source URL, the builder's own element list, the fixed settings, no files |
| Agent.DocumentOfList | test/excalidraw_agent.py:588-620 | the document depends on the element list alone, not on the title or the counters |
| Agent.ScanPrefixCrash | test/excalidraw_agent.py:315-316 | once the scan has crashed on a prefix, it crashes on the whole list |

## Left out

- `save_diagram`: file I/O and JSON formatting; the document is modelled as a record.
- `generate_excalidraw_json`'s `diagram_title` is accepted and never used, as in the source.
- The routing layout's `math.cos`/`math.sin`: the unit direction for destination i of n is a
  parameter `unit`. Only the radius, the structure, the counts and the bindings are proved.
- Floating point: coordinates and sizes are `real`, with no IEEE rounding. Integer arithmetic
  is unbounded, as in Python.
- `str.lower` lowers only the ASCII letters A–Z; Unicode case mapping is not modelled.
- Python's `in` and `remove` on dicts compare records field by field. The model compares
  object identity. The two differ only if the list already holds a distinct record equal
  field-for-field to a fresh shape. A fresh shape has a newly generated id, so this needs a
  caller to add such a copy by hand.
- A label of `None` and an empty label behave the same in the source (both falsy), so labels
  are strings and "" means absent. A `None` element is `null`.
- The unused `ExcalidrawElement`/`Position`/`Size` dataclasses and the enums: only their
  constants are used.
- `create_agent_framework_diagram` and the demo driver, and the Melody files (browser
  automation, GUI, notifications, configuration): these are I/O and not part of the builder.
- Layout defaults follow the code: the routing layout starts at y = 150 and the parallel
  layout at y = 300. The sequential arrow is the polyline [[0,0],[150,0]], one spacing
  (`Layout.ChainArrowsStraight`).
- `create_sequential_layout`'s `item_type`: any value other than "rectangle" gives ellipses,
  as in the code.
- Agent.ExcalidrawAgent.FanOut: on failure it does not state the spokes' bound references or
  the counter, only the appended list and the placement.
- Agent.ExcalidrawAgent.FanOut: it promises that the spokes are fresh objects, not the arrows.
- Agent.ExcalidrawAgent.SinkLink: on failure it states only the counter and the output's
  unchanged references, not the items' references.
- Agent.ExcalidrawAgent.FanIn: on failure it states only the counter and the output's
  references, not the items' references.
- Agent.ExcalidrawAgent.CreateRoutingLayout: on failure it states the appended list and the
  error, not the counter or the bound references at the point of failure.
- Agent.ExcalidrawAgent.CreateParallelLayout: on failure it states the appended list and the
  error, not the counter or the bound references at the point of failure.
- Agent.ExcalidrawAgent.DefaultRouting: on failure it states the appended list, not the counter
  or the bound references, as for the routing layout.
- Agent.ExcalidrawAgent.DefaultParallel: on failure it states the appended list, not the counter
  or the bound references, as for the parallel layout.
- Agent.ExcalidrawAgent.CreateFlowchartFromDescription: on failure it states the appended list
  and the error, not the counter or the bound references.
- The arrow counts of the routing and parallel results, and the bindings of their arrows,
  are proved as lemmas (`Fan.RoutingArrows`, `Fan.ParallelArrows`) over the facts these
  layouts ensure, not repeated in the layouts' own contracts.
