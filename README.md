# Cluster tooling cores, modelled in Dafny

The repository is a toolkit for deploying and running an Elasticsearch cluster. This
project models three of its tools and proves properties of the models.

- **The cluster-node diagram** (`tools/NetworkDiagram.js`, class `NodeDiagram`). This is
  a browser widget that draws the cluster's node types as boxes:
  - the helper node, three masters, the hot tier, and the ML and frozen tiers when they
    have nodes;
  - up to five node circles in each box, plus a "+N more" badge;
  - memory and vCPU figures read off the instance type;
  - curved connections between the boxes, with a monitoring overlay that can be switched
    on and off;
  - a viewport that pans, wheel-zooms, button-zooms and fits the content to the window.

  Modules: `Viewport` (pan and zoom arithmetic), `Routing` (which box edges a connection
  joins, and its control points), `Layout` (box sizes, the tier layout, the node grid, the
  badge, the fixed connection list), `InstanceTypes`, `Colors`, and `NodeDiagramModel`.
  `NodeDiagramModel` holds the `NodeDiagram` class, whose fields are the state the
  handlers change: the viewport, the drag snapshot, the overlay flag, the placed nodes and
  the drawn paths, with the index where the paths it still lists begin.
- **The PDF-to-TSV converter** (`playbook/utils-standalone/pdf2txt.py`). It turns each
  page of a PDF into chunks of whole sentences for a search index. Module `PdfToTsv`
  covers:
  - the sentence filter;
  - the scan that marks sentences near a link;
  - the chunker, with its size rule, its good-break-point rule and its sentence overlap;
  - the inline link enrichment;
  - the document-id counter, as class `PdfToTsvConverter`.

  `Strings` holds the Python string operations it relies on.
- **The node-table join** (`playbook/backup/join_node_tables.py`). It merges the node list
  Elasticsearch reports with the server inventory, grouping records by short host name.
  It keeps the hosts whose Elasticsearch service is running, and builds one sorted table
  row per host. Modules:
  - `HostNames`: host names, `split`, and the address pattern as a backtracking matcher;
  - `NodeTables`: the decoded JSON values and the two merge loops;
  - `NodeRows`: the values of one row;
  - `PyNumbers`: Python's `float` and `int` conversions;
  - `NodeJoin`: the filter, the column width, the sort and the main flow.

  Every Python exception the script can raise on badly shaped input is an explicit
  `Failure` of a `Result`, never a precondition.

Where the code writes state step by step, the model does too. The merge loops update
dicts in place. The filter, width and row loops, the link scan, the chunker and the
enrichment loop are methods with loop invariants. Each method is proved against a
specification function whose own properties are then proved as lemmas.

## Model

| member | source | states |
|---|---|---|
| Viewport.WheelFactor | tools/NetworkDiagram.js:2095 | the factor is positive, and exceeds 1 exactly when the wheel scrolls up |
| Viewport.ClampScale | tools/NetworkDiagram.js:2096 | the result lies in [0.25, 2.5]; an in-range scale is kept, and an out-of-range one goes to the bound it crosses |
| Viewport.PivotTranslate | tools/NetworkDiagram.js:2101-2102 | with the new translate, screen offset m reads back as content point p at the new scale |
| Viewport.ZoomAbout | tools/NetworkDiagram.js:2091-2104 | the new scale is taken, and the content point under (mx, my) is read back there on both axes |
| Viewport.ZoomAboutSameScale | tools/NetworkDiagram.js:2098-2104 | re-anchoring at the unchanged scale gives the same viewport |
| Viewport.WheelStep | tools/NetworkDiagram.js:2082-2107 | the scale is the clamped product, the point under the cursor is preserved, and nothing changes when the clamped scale equals the old one |
| Viewport.ZoomInStep | tools/NetworkDiagram.js:2210-2226 | the scale is min(2.5, 1.2 s), it never shrinks below the old scale unless capped, and the view centre is preserved |
| Viewport.ZoomOutStep | tools/NetworkDiagram.js:2229-2245 | the scale is max(0.25, s / 1.2), it never grows unless floored, and the view centre is preserved |
| Viewport.WheelSequenceBounded | tools/NetworkDiagram.js:2096 | after any non-empty sequence of wheel events the scale lies in [0.25, 2.5], whatever it was before |
| Viewport.PanFromSnapshot | tools/NetworkDiagram.js:2059-2068 | the pan depends only on the drag-start snapshot and the latest pointer, and no move gives the snapshot translate |
| Viewport.ContentCoordInvertsScreen | tools/NetworkDiagram.js:2091-2093 | the handlers' content coordinate is the inverse of the screen mapping they assume |
| Viewport.WheelPinsCursor | tools/NetworkDiagram.js:2091-2103 | under the assumed mapping, the content point under the cursor stays under it |
| Viewport.PanFollowsPointer | tools/NetworkDiagram.js:2062-2067 | under the assumed mapping, a pan moves every content point by exactly the pointer delta |
| Viewport.RenderedWheelMovesCursorPoint | tools/NetworkDiagram.js:886-891 | under the rendered `translate(t) scale(s)`, one wheel step from the identity moves the point under x = 100 to 1110/11 |
| Viewport.FitTransform | tools/NetworkDiagram.js:2133-2153 | the fitted scale is positive and at most the cap, and the padded box fits the view on both axes |
| Viewport.FitCentres | tools/NetworkDiagram.js:2169-2189 | under the assumed mapping, the fitted box has equal margins left and right, and top and bottom |
| Viewport.OptimizeTransform | tools/NetworkDiagram.js:738-760 | the result is the fit with padding 60 and cap 0.9, so the scale lies in (0, 0.9] |
| Viewport.FitFormsAgree | tools/NetworkDiagram.js:749-750 | the centring written as (W / s - bw) / 2 - bx equals the one written as ((W - bw s) / 2 - bx s) / s |
| Routing.ChooseSides | tools/NetworkDiagram.js:1795-1819 | the edge pair under each of the four ordered tests, with each test's condition stated both ways; vertical edges pair with vertical edges |
| Routing.DisjointBoxesFace | tools/NetworkDiagram.js:1795-1819 | for disjoint boxes, each chosen edge faces the other box |
| Routing.Endpoints | tools/NetworkDiagram.js:1795-1819 | the endpoints are the midpoints of the chosen edges |
| Routing.ControlOffset | tools/NetworkDiagram.js:1826 | the offset lies in [0, 80], is at most 0.4 \|dx\|, and equals one of the two |
| Routing.CurveBetween | tools/NetworkDiagram.js:1829-1841 | the curve joins the endpoints, and its control points leave them along the dominant axis only |
| Routing.ControlPointsWithinSpan | tools/NetworkDiagram.js:1826-1841 | each control point moves from its endpoint by the offset, towards the other endpoint, within their span |
| Routing.VerticalAlignedIsStraight | tools/NetworkDiagram.js:1826-1841 | vertically aligned endpoints give a straight line, because the offset is taken from dx |
| Routing.ConnectionCurve | tools/NetworkDiagram.js:1779-1841 | the curve of a connection starts and ends at the chosen edge midpoints |
| Routing.FindNodeByCoordinates | tools/NetworkDiagram.js:2988-3000 | the index of the first node whose centre is within 10 of the point on both axes, or none when no node is |
| Routing.FlowCurve | tools/NetworkDiagram.js:2893-2957 | when both points belong to nodes the flow curve joins their boxes by the edge rule; otherwise it joins the raw points |
| Colors.LightenChannel | tools/NetworkDiagram.js:3235-3237 | the channel stays at most 255; a valid channel with a non-negative percent never decreases and stays in range |
| Colors.DarkenChannel | tools/NetworkDiagram.js:3261-3263 | the channel stays at least 0; a channel with a non-negative percent never increases, and a valid one stays in range |
| Colors.LightenColor | tools/NetworkDiagram.js:3216-3240 | an unrecognised colour is returned unchanged; any other colour gets each channel lightened |
| Colors.DarkenColor | tools/NetworkDiagram.js:3242-3266 | an unrecognised colour is returned unchanged; any other colour gets each channel darkened |
| Colors.LightenDarkenOrder | tools/NetworkDiagram.js:3216-3266 | for a valid colour, darkened <= original <= lightened channel by channel, all within [0, 255] |
| Colors.ZeroPercentIsIdentity | tools/NetworkDiagram.js:3216-3266 | with percent 0 both helpers reproduce the colour's channels |
| InstanceTypes.MemoryGiB | tools/NetworkDiagram.js:3269-3290 | the empty type is unknown; known values are among the table's figures; any "xlarge" type gives at least 8 |
| InstanceTypes.Cpus | tools/NetworkDiagram.js:3293-3314 | the empty type is unknown; known values are among the table's figures; any "xlarge" type gives at least 4 |
| InstanceTypes.MemoryIsTwiceCpus | tools/NetworkDiagram.js:3269-3314 | both tables are unknown together; otherwise memory is twice the vCPU count |
| InstanceTypes.UnknownWithoutSize | tools/NetworkDiagram.js:3269-3314 | a type naming neither "large" nor "medium" is unknown to both tables |
| InstanceTypes.Label | tools/NetworkDiagram.js:1126-1168 | the label is "Unknown" exactly for an unknown amount |
| InstanceTypes.NodeSpecs | tools/NetworkDiagram.js:1126-1168 | the helper shows the fixed 4 GiB / 2 vCPU; other types show the table lookups |
| Layout.BoxHeight | tools/NetworkDiagram.js:3071-3076 | 140 for up to three nodes and 200 from four on |
| Layout.HotBoxWidth | tools/NetworkDiagram.js:3059-3065 | the width lies in [300, 360], and equals 40 per node when that is in range |
| Layout.NodeGrid | tools/NetworkDiagram.js:1171-1178 | at most five circles, at most 3 columns and 2 rows, enough cells with no empty row, and a 2 x 2 grid for four |
| Layout.CirclesApart | tools/NetworkDiagram.js:1181-1193 | two distinct circles are at least 2.5 radii apart on one axis |
| Layout.CircleOffsets | tools/NetworkDiagram.js:1181-1193 | the loop produces one offset per visible circle, with every pair at least 2.5 radii apart on one axis |
| Layout.MoreBadge | tools/NetworkDiagram.js:1304-1328 | the badge shows exactly when there are more than five nodes, with N = count - 5, and is 30 wide exactly for one-digit N |
| Layout.BadgeAccountsForAll | tools/NetworkDiagram.js:1171-1328 | the circles shown plus the badge's N account for every node |
| Layout.ReadForm | tools/NetworkDiagram.js:3028-3046 | each absent form field takes its default: 7 hot, 2 ML, 3 frozen, and the four default instance types |
| Layout.PresentTypes | tools/NetworkDiagram.js:3086-3173 | helper, master and hot are always placed; ML and frozen exactly when their count is positive |
| Layout.LayoutNodes | tools/NetworkDiagram.js:3086-3173 | exactly the present types are placed |
| Layout.LayoutNodesPlaced | tools/NetworkDiagram.js:3086-3173 | every placed node is centred in its box, with its count, box width and box height |
| Layout.TiersStacked | tools/NetworkDiagram.js:3086-3173 | the tiers stack, so master-to-hot and hot-to-third-tier connections run bottom edge to top edge, and the ML and frozen boxes mirror each other |
| Layout.UpdatePlanPlaced | tools/NetworkDiagram.js:3175-3205 | every connection update() draws joins two placed node types |
| NodeDiagramModel.UpdatePlanConnects | tools/NetworkDiagram.js:3086-3205 | every connection update() draws joins two of the nodes it lays out |
| Layout.IfPresent | tools/NetworkDiagram.js:1719-1756 | a guarded connection is drawn exactly when both of its nodes are present |
| Layout.RebuildPlan | tools/NetworkDiagram.js:1719-1756 | every rebuilt connection joins two present node types |
| Layout.RebuildMatchesUpdate | tools/NetworkDiagram.js:1719-1756 | the rebuild draws the same ordered list as update() does for the types it placed |
| NodeDiagramModel.PathFor | tools/NetworkDiagram.js:1779-1889 | the path carries its connection, and it is hidden exactly when it is a monitoring path with the overlay off |
| NodeDiagramModel.PlanPaths | tools/NetworkDiagram.js:3175-3205 | one path per planned connection |
| NodeDiagramModel.PlanPathsAttached | tools/NetworkDiagram.js:1779-1889 | the i-th drawn path is the path of the i-th planned connection, so every path stays attached to its boxes |
| NodeDiagramModel.RebuildAfterUpdateSamePaths | tools/NetworkDiagram.js:1693-1760 | redrawing right after update() reproduces update()'s paths exactly, in the same order |
| NodeDiagramModel.UpdatePathsEndWithMonitoring | tools/NetworkDiagram.js:3175-3205 | update()'s drawing always ends with a monitoring path |
| NodeDiagramModel.StaleMonitoringPathAfterUpdate | tools/NetworkDiagram.js:3011-3025 | turning the overlay on, running update() and turning it off again leaves a monitoring path shown with the overlay off |
| NodeDiagramModel.NoStaleMonitoringPathWhenCleared | tools/NetworkDiagram.js:3003-3025 | the same sequence with update() clearing every connection ends with exactly the monitoring paths hidden |
| NodeDiagramModel.NodeDiagram.constructor | tools/NetworkDiagram.js:567-735 | a zero container dimension falls back to 1000 or 700; the first update lays out and draws the diagram, and centring starts at scale 0.5 about the canvas centre; without a container nothing is drawn; every path is listed |
| NodeDiagramModel.NodeDiagram.Init | tools/NetworkDiagram.js:629-686 | without a container nothing changes; otherwise a non-zero client dimension replaces the size, the update appends the plan's paths, and the viewport is centred at scale 0.5 |
| NodeDiagramModel.NodeDiagram.SetCentering | tools/NetworkDiagram.js:689-697 | the first transform is scale 0.5 about the canvas centre; nothing else changes |
| NodeDiagramModel.NodeDiagram.CreateConnection | tools/NetworkDiagram.js:1779-1897 | appends exactly one path and changes nothing else |
| NodeDiagramModel.NodeDiagram.Update | tools/NetworkDiagram.js:3002-3212 | the nodes are laid out afresh from the form; the earlier connection paths stay in the group but are no longer listed, and the plan's paths are appended and attached; the viewport and drag state are untouched |
| NodeDiagramModel.NodeDiagram.UpdateClearingConnections | tools/NetworkDiagram.js:3002-3212 | update() as intended: the paths become exactly the plan's paths, all listed and attached |
| NodeDiagramModel.NodeDiagram.DrawPlan | tools/NetworkDiagram.js:3175-3205 | appends the plan's paths in order and keeps the listed paths attached |
| NodeDiagramModel.NodeDiagram.UpdateAllConnections | tools/NetworkDiagram.js:1693-1760 | the paths become the rebuild plan's paths against the current boxes, all listed and attached; nothing else changes |
| NodeDiagramModel.NodeDiagram.ToggleMonitoring | tools/NetworkDiagram.js:952-968 | flips the overlay flag; among the listed paths exactly the monitoring ones are hidden while it is off; unlisted paths, specs and curves are kept |
| NodeDiagramModel.NodeDiagram.UpdateMonitoringConnections | tools/NetworkDiagram.js:2397-2410 | listed monitoring paths are shown exactly when the overlay is on; unlisted and other paths, and all other state, are unchanged |
| NodeDiagramModel.NodeDiagram.HandleMouseDown | tools/NetworkDiagram.js:2034-2057 | a pan starts, with a snapshot of the pointer and translate, exactly for the primary button outside interactive elements |
| NodeDiagramModel.NodeDiagram.HandleMouseMove | tools/NetworkDiagram.js:2059-2071 | while dragging, the translate is the snapshot's plus the pointer delta over the scale; otherwise nothing changes |
| NodeDiagramModel.NodeDiagram.HandleMouseUp | tools/NetworkDiagram.js:2073-2080 | ends any pan and changes nothing else |
| NodeDiagramModel.NodeDiagram.HandleWheel | tools/NetworkDiagram.js:2082-2107 | the viewport takes one wheel step, and its scale stays in [0.25, 2.5] |
| NodeDiagramModel.NodeDiagram.ZoomIn | tools/NetworkDiagram.js:2210-2226 | the viewport takes one zoom-in step about the view centre |
| NodeDiagramModel.NodeDiagram.ZoomOut | tools/NetworkDiagram.js:2229-2245 | the viewport takes one zoom-out step about the view centre |
| NodeDiagramModel.NodeDiagram.ApplyDefaultCentering | tools/NetworkDiagram.js:700-712 | the viewport becomes scale 0.45 at offset (250, 230) |
| NodeDiagramModel.NodeDiagram.OptimizeIfMeasured | tools/NetworkDiagram.js:719-730 | the layout is optimised only for a content box of positive size; otherwise the viewport is kept |
| NodeDiagramModel.NodeDiagram.ResetView | tools/NetworkDiagram.js:2158-2166 | the viewport returns to the identity |
| NodeDiagramModel.NodeDiagram.FitToContent | tools/NetworkDiagram.js:2169-2189 | the viewport is the fit with padding 30 and cap 1 |
| NodeDiagramModel.NodeDiagram.HandleResize | tools/NetworkDiagram.js:2109-2131 | a visible container that moved more than 50 on an axis gets a size of at least 800 x 600, a fresh layout and update()'s paths appended; otherwise nothing changes |
| Strings.LStrip | playbook/utils-standalone/pdf2txt.py:66 | the result is a suffix that does not start with whitespace, and only whitespace was removed |
| Strings.RStrip | playbook/utils-standalone/pdf2txt.py:66 | the result is a prefix that does not end with whitespace, and only whitespace was removed |
| Strings.Strip | playbook/utils-standalone/pdf2txt.py:66 | the result neither starts nor ends with whitespace and is no longer than the input |
| Strings.StripRemovesOnlySpace | playbook/utils-standalone/pdf2txt.py:66 | the input is whitespace, then the stripped text, then whitespace |
| Strings.StripIdempotent | playbook/utils-standalone/pdf2txt.py:66 | stripping twice is stripping once |
| Strings.Contains | playbook/utils-standalone/pdf2txt.py:119 | the empty string occurs everywhere, and nothing longer than the text occurs in it |
| Strings.ContainsIffOccurs | playbook/utils-standalone/pdf2txt.py:119 | `sub in s` holds exactly when sub occurs at some position of s |
| Strings.ReplaceAbsent | playbook/utils-standalone/pdf2txt.py:205 | replacing a non-empty pattern that does not occur leaves the text unchanged |
| Strings.ReplaceBySelf | playbook/utils-standalone/pdf2txt.py:205 | replacing a non-empty pattern by itself leaves the text unchanged |
| Strings.ToLowerAscii | playbook/utils-standalone/pdf2txt.py:182 | same length, each character lowered, with no upper-case letter left |
| PdfToTsv.SplitIntoSentences | playbook/utils-standalone/pdf2txt.py:63-66 | no more sentences than pieces, each non-empty and already stripped |
| PdfToTsv.SplitKeepsNonBlank | playbook/utils-standalone/pdf2txt.py:66 | every non-blank piece survives, stripped |
| PdfToTsv.PieceKept | playbook/utils-standalone/pdf2txt.py:66 | one given non-blank piece survives, stripped |
| PdfToTsv.SplitEmptyIffBlank | playbook/utils-standalone/pdf2txt.py:66 | there are no sentences exactly when every piece is blank |
| PdfToTsv.JoinEndsWithLast | playbook/utils-standalone/pdf2txt.py:172 | a joined chunk ends with its last sentence |
| PdfToTsv.NearMentionMeans | playbook/utils-standalone/pdf2txt.py:118-125 | the scan over sentences marks j exactly when one of them mentions the link and is next to j |
| PdfToTsv.InContextUpToMeans | playbook/utils-standalone/pdf2txt.py:114-125 | the scan over links marks j exactly when one of them is mentioned in or next to sentence j |
| PdfToTsv.InContextMeans | playbook/utils-standalone/pdf2txt.py:113-125 | link context means: some link has a non-empty raw text whose stripped form occurs in sentence j or a neighbour (a text of only whitespace strips to "" and so occurs in every sentence) |
| PdfToTsv.LinkContext | playbook/utils-standalone/pdf2txt.py:112-125 | the scan returns exactly the in-bounds indices that are link context |
| PdfToTsv.NoMentionWithoutText | playbook/utils-standalone/pdf2txt.py:115-116 | a link without a text marks nothing |
| PdfToTsv.IsGoodBreakPoint | playbook/utils-standalone/pdf2txt.py:176-186 | false without a full stop; true after a stop before "However", "Moreover" or "Furthermore"; the IndexError exactly for a non-abbreviation stop before an empty next sentence; true only after a stop; true before a capital after a non-abbreviation stop |
| PdfToTsv.Keep | playbook/utils-standalone/pdf2txt.py:144-145 | the overlap carried over is min(overlap, m), or none when overlap is not positive |
| PdfToTsv.ChunksJoinedMeans | playbook/utils-standalone/pdf2txt.py:141 | chunk k is exactly the sentences of window k joined by spaces |
| PdfToTsv.CutsJustifiedMeans | playbook/utils-standalone/pdf2txt.py:137-166 | window k was closed by the rule recorded for it, which held at its end |
| PdfToTsv.CutsJustifiedExtend | playbook/utils-standalone/pdf2txt.py:137-166 | a new window does not disturb the reasons of earlier ones |
| PdfToTsv.WindowsCover | playbook/utils-standalone/pdf2txt.py:144-145 | chained windows skip no sentence before the end of the last one |
| PdfToTsv.ChunksCoverSentences | playbook/utils-standalone/pdf2txt.py:127-172 | every sentence lies in some chunk, and the sentences each chunk adds past the end of the chunk before it, concatenated in chunk order, are exactly the sentence list |
| PdfToTsv.CutOf | playbook/utils-standalone/pdf2txt.py:127-168 | the cut a check would make sits at that check: CutOf inverts CheckAt |
| PdfToTsv.CutEndMonotone | playbook/utils-standalone/pdf2txt.py:127-168 | a later check never cuts before an earlier one |
| PdfToTsv.JustifiedFires | playbook/utils-standalone/pdf2txt.py:137-166 | a window closed for a reason ends where that reason cuts, before the last sentence, and its rule fires at its own check |
| PdfToTsv.FirstSnoc | playbook/utils-standalone/pdf2txt.py:137-166 | cutting the open window at the first check that fires for it keeps every cut the first one after its opening |
| PdfToTsv.SkipCheck | playbook/utils-standalone/pdf2txt.py:137-166 | a check whose rule neither fires nor raises leaves no cut missed up to the next check |
| PdfToTsv.UnmissedClose | playbook/utils-standalone/pdf2txt.py:137-166 | cutting the open chunk at the first check that fired for it leaves no cut missed up to the next check |
| PdfToTsv.UnmissedLast | playbook/utils-standalone/pdf2txt.py:170-172 | closing the open chunk as the last one keeps every cut the first after its opening, and no check fired or raised for the last chunk |
| PdfToTsv.PointFires | playbook/utils-standalone/pdf2txt.py:151-166 | the point check after sentence i fires exactly when the good-point rule's condition holds, and raises exactly when the rule reaches the break-point test on a next sentence that makes it fail |
| PdfToTsv.PointSkip | playbook/utils-standalone/pdf2txt.py:151-157 | a point check whose rule does not hold, and whose break-point test, if reached, returns a value, leaves the chunk open with no cut missed |
| PdfToTsv.PointCrash | playbook/utils-standalone/pdf2txt.py:151-157 | a point check that reaches a failing break-point test leaves the run in the raised state: closed windows first-cut, none fired or raised since the opening, and this check raises |
| PdfToTsv.ChainedAt | playbook/utils-standalone/pdf2txt.py:141-166 | window 0 starts at sentence 0, and window k + 1 starts Keep sentences before the end of window k |
| PdfToTsv.WindowEndsInOrder | playbook/utils-standalone/pdf2txt.py:127-172 | window ends never decrease, each cut lies before the last sentence, and every window lies within the sentences |
| PdfToTsv.WindowEndsIncrease | playbook/utils-standalone/pdf2txt.py:137-166 | with more sentences per chunk than are carried over (the default 2 and 1), window ends strictly increase |
| PdfToTsv.OverlapOnlyChunk | playbook/utils-standalone/pdf2txt.py:137-166 | with one sentence per chunk and one carried over, a chunk can be exactly the overlap of the one before: "x", "A.", "However" give "x A.", "A.", "A. However" |
| PdfToTsv.FreshPartsPrefix | playbook/utils-standalone/pdf2txt.py:141-166 | for windows with non-decreasing ends, the sentences each adds past the one before concatenate to the prefix up to the last end |
| PdfToTsv.ChunksOverlap | playbook/utils-standalone/pdf2txt.py:141-166 | the first chunk starts at sentence 0, and each later chunk's sentences are the previous chunk's overlap followed by the sentences up to its own end |
| PdfToTsv.FirstCutUnique | playbook/utils-standalone/pdf2txt.py:127-168 | two cuts of the same open chunk, each the first to fire after the same opening, are the same cut |
| PdfToTsv.SameOpening | playbook/utils-standalone/pdf2txt.py:141-146 | two chained runs that agree on their first k windows and cuts open window k at the same sentence and after the same check |
| PdfToTsv.CutBreaksQuiet | playbook/utils-standalone/pdf2txt.py:137-166 | a window closed for its reason after a check breaks the quiet of its start from that check on |
| PdfToTsv.SameCut | playbook/utils-standalone/pdf2txt.py:127-168 | two windows with the same start, each cut at the first firing check after the same opening, are the same window with the same cut |
| PdfToTsv.RunsAgree | playbook/utils-standalone/pdf2txt.py:127-172 | two runs that agree on their first k windows and cuts agree on all of them |
| PdfToTsv.ChunkingDetermined | playbook/utils-standalone/pdf2txt.py:127-174 | the chunking specification fixes the chunks, windows and cuts: two results that meet it are equal |
| PdfToTsv.OverlapOfWindow | playbook/utils-standalone/pdf2txt.py:164-165 | the carried-over sentences are the last Keep sentences of the open window |
| PdfToTsv.CloseChunk | playbook/utils-standalone/pdf2txt.py:141-146 | closing a chunk for a justified reason keeps the chunker's state invariant |
| PdfToTsv.AddSentence | playbook/utils-standalone/pdf2txt.py:148-149 | adding the next sentence keeps the chunker's state invariant |
| PdfToTsv.StartNextChunk | playbook/utils-standalone/pdf2txt.py:141-146 | emits the joined chunk and opens the next one from the overlap, keeping the invariant |
| PdfToTsv.SizeRule | playbook/utils-standalone/pdf2txt.py:137-146 | the size check keeps the chunker's state invariant: it closes the chunk exactly when the size rule holds |
| PdfToTsv.PointRule | playbook/utils-standalone/pdf2txt.py:151-166 | the break-point check keeps the invariant, closing the chunk exactly when the rule holds; it fails only on an empty next sentence, and then exactly at a check that raises for the open chunk with nothing missed before it; it never closes after the last sentence |
| PdfToTsv.ChunkSentence | playbook/utils-standalone/pdf2txt.py:127-166 | one pass of the loop: the size rule, the sentence joining the chunk, and the good-point rule keep the invariant, or the pass raises at the point check |
| PdfToTsv.FinishChunks | playbook/utils-standalone/pdf2txt.py:170-172 | emitting the open chunk completes the chunk list, it ends with the last sentence, and no rule fired or raised for it after its opening |
| PdfToTsv.EmitLastChunk | playbook/utils-standalone/pdf2txt.py:170-174 | the final chunk list meets the chunking specification: windows chained by the overlap rule, each chunk but the last closed at the first check after its opening whose rule held, none held for the last chunk, and the last window ends at the last sentence |
| PdfToTsv.CreateMeaningfulChunks | playbook/utils-standalone/pdf2txt.py:103-174 | it fails only on an empty sentence after the first, never when all are non-empty, and only at a reached break-point test that raises with no cut missed before it; a success meets the chunking specification, which fixes the result (ChunkingDetermined) and rules out any such raise (ChunkingExcludesCrash) |
| PdfToTsv.SameOpenStart | playbook/utils-standalone/pdf2txt.py:141-146 | a run agreeing with a raised run on all the windows the latter closed opens its next window at the same sentence after the same check |
| PdfToTsv.CheckBreaksQuiet | playbook/utils-standalone/pdf2txt.py:127-168 | a check that fires or raises between two checks breaks the quiet between them |
| PdfToTsv.CutNotCrash | playbook/utils-standalone/pdf2txt.py:151-157 | the check at which a window is closed for its reason does not raise for it |
| PdfToTsv.CutBeforeCrash | playbook/utils-standalone/pdf2txt.py:127-168 | a window cut at its first firing check, whose start raises at a later check after the same opening, is cut before that check |
| PdfToTsv.OpenWindowQuiet | playbook/utils-standalone/pdf2txt.py:127-172 | a window that is cut at its first firing check or stays quiet to the end does not reach a raising check quietly from the same opening |
| PdfToTsv.CrashAgrees | playbook/utils-standalone/pdf2txt.py:127-172 | a run that ends with every sentence in a chunk cannot agree with a raised run on the windows the latter closed |
| PdfToTsv.ChunkingExcludesCrash | playbook/utils-standalone/pdf2txt.py:127-174 | when the chunking specification holds, no run of the loop on the same sentences raises at any check |
| PdfToTsv.RaisingInputHasNoChunking | playbook/utils-standalone/pdf2txt.py:151-157 | with no minimums and one sentence carried over, "A.", "" raise at the test after "A.", so no chunk list meets the specification |
| PdfToTsv.Insert | playbook/utils-standalone/pdf2txt.py:194 | inserting keeps the text-length order and adds exactly the one link |
| PdfToTsv.SortByTextLengthDesc | playbook/utils-standalone/pdf2txt.py:194 | the result is ordered longest text first and is a permutation of the links |
| PdfToTsv.InsertKeepsOrder | playbook/utils-standalone/pdf2txt.py:194 | insertion keeps the relative order of links of equal length |
| PdfToTsv.SortIsStable | playbook/utils-standalone/pdf2txt.py:194 | the sort is stable: links of equal text length keep their order |
| PdfToTsv.UnusableLinksIgnored | playbook/utils-standalone/pdf2txt.py:198-199 | a link missing a text or a uri makes no difference |
| PdfToTsv.NoOccurrenceUnchanged | playbook/utils-standalone/pdf2txt.py:201-205 | when no usable link's text occurs, the text is unchanged |
| PdfToTsv.SortedFromInput | playbook/utils-standalone/pdf2txt.py:194 | every sorted link is one of the inputs |
| PdfToTsv.EnrichChunkWithLinks | playbook/utils-standalone/pdf2txt.py:188-207 | the loop applies the sorted links in order; no links, or none that occurs, leave the chunk unchanged |
| PdfToTsv.ApplyLinksStep | playbook/utils-standalone/pdf2txt.py:197-205 | applying one more link is one more step |
| PdfToTsv.NoMatchCase | playbook/utils-standalone/pdf2txt.py:196-207 | with no occurring link, the sorted application leaves the chunk unchanged |
| PdfToTsv.ChunkLinks | playbook/utils-standalone/pdf2txt.py:238-241 | exactly the links with a text that occurs, unstripped, in the chunk |
| PdfToTsv.EnrichPageChunk | playbook/utils-standalone/pdf2txt.py:238-242 | one chunk comes back with the links whose text it contains applied, longest text first |
| PdfToTsv.EnrichChunks | playbook/utils-standalone/pdf2txt.py:237-243 | one enriched chunk per chunk, in order, each with the links whose text it contains applied, longest first |
| PdfToTsv.PdfToTsvConverter.constructor | playbook/utils-standalone/pdf2txt.py:23-26 | the given config or the default one, and the counter seeded from the clock |
| PdfToTsv.PdfToTsvConverter.GetNextId | playbook/utils-standalone/pdf2txt.py:37-40 | returns the old counter plus one, which becomes the counter |
| PdfToTsv.PdfToTsvConverter.NumberChunks | playbook/utils-standalone/pdf2txt.py:246-249 | one row per chunk with consecutive fresh ids in order, so the ids strictly increase |
| PdfToTsv.PdfToTsvConverter.ProcessPage | playbook/utils-standalone/pdf2txt.py:228-243 | the page's chunks before enrichment meet the chunking specification for its sentences, and entry j of the output is chunk j with the page links whose text it contains applied, longest first; a page yields no chunks exactly when all of its pieces are blank |
| HostNames.NormalizeHostname | playbook/backup/join_node_tables.py:18-29 | the result is the name up to its trailing dots: a prefix, not ending in a dot, with only dots removed |
| HostNames.NormalizeHostnameIdempotent | playbook/backup/join_node_tables.py:18-29 | normalising twice is normalising once |
| HostNames.NormalizeDropsTrailingDots | playbook/backup/join_node_tables.py:21 | a name with any run of dots added normalises back to the name |
| HostNames.Split | playbook/backup/join_node_tables.py:172 | a split has at least one piece |
| HostNames.SplitPiecesLackSep | playbook/backup/join_node_tables.py:172 | no piece holds the separator |
| HostNames.JoinSplit | playbook/backup/join_node_tables.py:172 | joining the pieces of a split gives the text back |
| HostNames.SplitJoin | playbook/backup/join_node_tables.py:172 | splitting joined separator-free pieces gives the pieces back |
| HostNames.ShortNameMeans | playbook/backup/join_node_tables.py:172 | the short name is the text before the first dot, or the whole name |
| HostNames.CanonicalIsHostname | playbook/backup/join_node_tables.py:175 | the canonical-name expression always gives the host name itself |
| HostNames.Groups | playbook/backup/join_node_tables.py:34 | a successful group match ends past its start, where no digit follows |
| HostNames.GroupsSound | playbook/backup/join_node_tables.py:34 | what the matcher passes over is dotted digit groups |
| HostNames.GroupsComplete | playbook/backup/join_node_tables.py:34 | dotted groups ending where no digit follows are what the matcher finds |
| HostNames.QuadAt | playbook/backup/join_node_tables.py:34-35 | a match at i ends past i, within the text |
| HostNames.QuadAtSound | playbook/backup/join_node_tables.py:34-35 | what QuadAt finds is a match of the address pattern |
| HostNames.QuadAtComplete | playbook/backup/join_node_tables.py:34-35 | every match of the pattern starting at i is what QuadAt finds |
| HostNames.QuadAtMeans | playbook/backup/join_node_tables.py:34-35 | QuadAt finds exactly the matches of the pattern starting at i |
| HostNames.SearchFrom | playbook/backup/join_node_tables.py:35 | the leftmost start with a match and its end, or none when no start has one |
| HostNames.SearchFindsFirst | playbook/backup/join_node_tables.py:35 | the search stops at the first start where a match exists |
| HostNames.ExtractIpFindsFirst | playbook/backup/join_node_tables.py:31-39 | extract_ip returns the leftmost match of the address pattern |
| HostNames.ExtractIpWithoutMatch | playbook/backup/join_node_tables.py:37-39 | without a match, the text is returned unchanged |
| HostNames.MatchedQuad | playbook/backup/join_node_tables.py:34-38 | what the search finds is a dotted quad |
| HostNames.QuadIsOwnAddress | playbook/backup/join_node_tables.py:31-39 | a dotted quad on its own is its own address |
| HostNames.ExtractIpShape | playbook/backup/join_node_tables.py:31-39 | the result is the input or a dotted quad |
| HostNames.ExtractIpIdempotent | playbook/backup/join_node_tables.py:31-39 | extracting twice is extracting once |
| HostNames.ShortGroupsAreGroups | playbook/backup/join_node_tables.py:192 | the greedy unbounded pattern matches wherever the bounded one does, with the same end |
| HostNames.ExtractedLooksLikeIp | playbook/backup/join_node_tables.py:190-193 | an address extract_ip found passes the dotted test the merge applies |
| NodeTables.RecordName | playbook/backup/join_node_tables.py:167-169 | a record is skipped exactly when its name is missing or falsy; a name is a non-empty string; a non-dict record fails |
| NodeTables.RecordIp | playbook/backup/join_node_tables.py:183 | the address is one extract_ip keeps; a record without "ip" gives the default's address |
| NodeTables.EsFoldCrashSticks | playbook/backup/join_node_tables.py:166-193 | once the Elasticsearch loop raises, later records make no difference |
| NodeTables.ServerFoldCrashSticks | playbook/backup/join_node_tables.py:196-226 | once the server loop raises, later records make no difference |
| NodeTables.RefreshEsGroup | playbook/backup/join_node_tables.py:186-193 | the in-place update equals the specification step for a later Elasticsearch record |
| NodeTables.RefreshServerGroup | playbook/backup/join_node_tables.py:217-226 | the in-place update equals the specification step for a later server record |
| NodeTables.AddEsNode | playbook/backup/join_node_tables.py:167-193 | the loop body, updating both dicts in place, equals one specification step |
| NodeTables.AddServerNode | playbook/backup/join_node_tables.py:197-226 | the loop body, updating both dicts in place, equals one specification step |
| NodeTables.MergeEsNodes | playbook/backup/join_node_tables.py:166-193 | the loop equals the fold over the records, raising where it raises |
| NodeTables.MergeServerNodes | playbook/backup/join_node_tables.py:196-226 | the loop equals the fold over the records, raising where it raises |
| NodeTables.EsRefreshFacts | playbook/backup/join_node_tables.py:186-193 | a later record replaces the Elasticsearch data only, and the address changes only to a dotted one |
| NodeTables.ServerRefreshFacts | playbook/backup/join_node_tables.py:217-226 | a later record replaces the server data only; an address that looks like one is kept, and it changes only to a dotted one |
| NodeTables.EsStepAt | playbook/backup/join_node_tables.py:167-193 | one record, seen from one key: which dict entries appear, what they hold, and that addresses stay extracted |
| NodeTables.ServerStepAt | playbook/backup/join_node_tables.py:197-226 | the same for one server record, with the canonical name kept from the first record |
| NodeTables.EsFoldAt | playbook/backup/join_node_tables.py:166-193 | after the loop, seen from one key: the groups, the last record's data, the first record's canonical name, and the address rule |
| NodeTables.ServerFoldAt | playbook/backup/join_node_tables.py:196-226 | the same for the server loop, with the two dicts keeping equal key sets |
| PyNumbers.Trunc | playbook/backup/join_node_tables.py:82 | `int` of a float truncates toward zero, bounded within 1 on either side |
| PyNumbers.FloatOfUnpadded | playbook/backup/join_node_tables.py:82 | a text with no surrounding whitespace is parsed as it is |
| PyNumbers.ParseDigits | playbook/backup/join_node_tables.py:82 | a non-empty digit string reads as its value |
| PyNumbers.FloatOfNatText | playbook/backup/join_node_tables.py:82 | the decimal text of a whole number reads back as that number |
| NodeRows.FirstTruthy | playbook/backup/join_node_tables.py:66-78 | the first truthy candidate, or the last operand when none is truthy |
| NodeRows.FirstTruthyOfThree | playbook/backup/join_node_tables.py:66-71 | the or-chain of three candidates, case by case |
| NodeRows.MemSource | playbook/backup/join_node_tables.py:65-78 | fails exactly when a looked-up object is not a dict; otherwise the first truthy of the three places or the default |
| NodeRows.MemGb | playbook/backup/join_node_tables.py:81-93 | an infinity raises; a finite value gives the truncated quotient or the default for 0; NaN and unreadable text give the default |
| NodeRows.MemGbOfMegabytes | playbook/backup/join_node_tables.py:81-93 | a whole megabyte count gives the default below 1024, otherwise mb // 1024 |
| NodeRows.MemGbOfText | playbook/backup/join_node_tables.py:81-93 | a count stored as its decimal text gives what the number gives |
| NodeRows.FloatOfDecimalText | playbook/backup/join_node_tables.py:82 | `float` of a count's decimal text is that count |
| NodeRows.Status | playbook/backup/join_node_tables.py:102-105 | "OK" exactly for status "running", "NO" otherwise, and a failure for a non-dict component |
| NodeRows.EsColumnsOf | playbook/backup/join_node_tables.py:45-54 | succeeds exactly for a dict; `{}` gives the placeholders; a present key gives its value |
| NodeRows.MemoryOf | playbook/backup/join_node_tables.py:61-93 | total and free memory are never 0 |
| NodeRows.MemoryDefaults | playbook/backup/join_node_tables.py:66-93 | with no figure anywhere, total and free are 16 and 2 |
| NodeRows.MemoryFromFacts | playbook/backup/join_node_tables.py:66-86 | a truthy ansible_memtotal_mb that float() reads as mb >= 1024, whether a number or text, gives a total of mb // 1024 |
| NodeRows.DataUsage | playbook/backup/join_node_tables.py:107-110 | the usage shows only when data_dir_exists is truthy; otherwise "N/A" |
| NodeRows.ServicesOf | playbook/backup/join_node_tables.py:99-110 | each service column is "OK" exactly when that component's status is "running", else "NO" |
| NodeRows.FormatRow | playbook/backup/join_node_tables.py:41-138 | a row needs dict data; it names the canonical host, the extracted address, each column's source value, and the used-disk rule |
| NodeJoin.Items | playbook/backup/join_node_tables.py:166 | a list yields its items; only a list yields any; null, bool and number cannot be iterated |
| NodeJoin.Running | playbook/backup/join_node_tables.py:230-233 | true exactly for status "running"; fails exactly when a step of the lookup is not a dict |
| NodeJoin.MergeAt | playbook/backup/join_node_tables.py:161-226 | after both loops, seen from one short name: whether a group exists, its canonical name, its last records, and its address |
| NodeJoin.KeptGroupsAt | playbook/backup/join_node_tables.py:229-234 | the kept groups are, unchanged, exactly those whose Elasticsearch status is "running" |
| NodeJoin.FilterRunning | playbook/backup/join_node_tables.py:229-234 | fails exactly when some group's lookup fails; otherwise keeps exactly the running groups |
| NodeJoin.HostColumnWidth | playbook/backup/join_node_tables.py:237-244 | the width is at least 27, leaves room for every kept name plus 2, and is 27 or reached by some name |
| NodeJoin.LexLeqTotal | playbook/backup/join_node_tables.py:292 | the order on short names is total |
| NodeJoin.LexLeqTrans | playbook/backup/join_node_tables.py:292 | the order on short names is transitive |
| NodeJoin.LexLeqAntisym | playbook/backup/join_node_tables.py:292 | the order on short names is antisymmetric |
| NodeJoin.InsertSorted | playbook/backup/join_node_tables.py:292 | inserting into sorted rows keeps them sorted and adds exactly the one row |
| NodeJoin.SortRowsSorted | playbook/backup/join_node_tables.py:292 | the sort orders the rows and is a permutation of them |
| NodeJoin.SortedTable | playbook/backup/join_node_tables.py:285-292 | sorting one row per kept group gives the sorted table of the kept groups |
| NodeJoin.TableRows | playbook/backup/join_node_tables.py:285-292 | fails exactly when some kept group's row fails; otherwise one FormatRow row per kept group, sorted by short name |
| NodeJoin.MergeInputs | playbook/backup/join_node_tables.py:161-226 | iterating and merging both inputs gives the merge specification's result |
| NodeJoin.JoinNodeTables | playbook/backup/join_node_tables.py:161-292 | fails exactly when the merge, the filter or a row fails; otherwise gives the measured width and the sorted table of the running groups |

## Left out

- The DOM and SVG of the node diagram are left out: element creation, classes, tooltips, the badge's text, fullscreen, the data-flow overlays with their hand-placed paths, and the zoom-level CSS class. The model keeps the state the handlers compute from.
- `setTimeout` and `requestAnimationFrame` are left out. Each deferred step of `initCentering`, `resetView` and `handleResize` is its own method (`ApplyDefaultCentering`, `OptimizeIfMeasured`, `FitToContent`), and `getBBox` is a parameter.
- The second class in `tools/NetworkDiagram.js`, the CIDR network diagram, is not part of the core modelled here.
- `NodeDiagramModel.NodeDiagram.HandleResize`: runs `update()` as written (`Update`); the deferred fit after it is `FitToContent`.
- Node dragging (`handleNodeDrag`, which moves a box and then calls `updateAllConnections`) is not modelled; `UpdateAllConnections` is, against whatever boxes are placed.
- Traffic dots on data and monitoring paths, and their visibility in `updateMonitoringConnections`, are part of the SVG and are left out.
- `Layout.ReadForm`: takes each count as an already parsed `Option<int>`. It leaves out `parseInt` at `tools/NetworkDiagram.js:3032`, `3037` and `3042`: text such as "5.7" parses to 5, and an emptied field gives NaN, which then reaches `Math.max(300, n * 40)`.
- Colour text parsing (`#rrggbb` and `rgb(...)`) is an input: a colour arrives already classified, with its channels read.
- JavaScript numbers are modelled as real numbers, without floating-point rounding.
- From the PDF converter:
  - the PDF library `fitz` and `extract_links_from_page`, which read the document;
  - `clean_text`, which uses Unicode normalisation;
  - the sentence splitting pattern itself (the raw pieces are an input);
  - file writing, logging and the interactive `main`.
- Strings: `str.isspace` is Python's full whitespace set; `str.lower` and `isupper` are modelled on ASCII letters only.
- From the node-table join:
  - command-line handling, file reading, `json.load` and its error exit;
  - printing, and the header and separator lines;
  - the f-string padding of each row, and the TypeError that formatting `None`, a list or a dict with a width raises. A row is modelled as the tuple of its column values.
- `NodeJoin.JoinNodeTables`: returns the pairs of short name and row. It leaves out the final projection to the rows, which only drops the short names.
- `HostNames.NormalizeHostname`: `main` never calls it. It is modelled for its own contract.
- The address pattern's `\d`, `\w` and `\b` are modelled on ASCII digits and word characters. Python's Unicode digits are not modelled.
- Python numbers: a decoded JSON number is a real number, with no int/float distinction and no float rounding. `float()` accepts decimal text with an optional exponent, and `inf`/`nan`. Underscores in numeric text, and numbers too large for a float, are not modelled.
- Error messages, and which record's exception is the one reported when several would raise, are not modelled. Only that a run fails is.
- `playbook/tools/check_hot_node.py` is not part of this model.

## Findings

| source | as written | input that shows it | evidently intended | confidence | as-written member | corrected member |
|---|---|---|---|---|---|---|
| tools/NetworkDiagram.js:886-891, 2091-2103 | the root group is drawn with `translate(t) scale(s)`, mapping content point p to t + s p, while the wheel, button, pan and fit handlers compute content points as m / s - t, the inverse of s (p + t) | identity viewport, cursor at x = 100, one wheel step up (deltaY < 0): the content point under the cursor is drawn at 1110/11, not at 100 | the transform written `scale(s) translate(t)`, so the point under the cursor stays put | medium, not executed | Viewport.RenderedWheelMovesCursorPoint | Viewport.WheelPinsCursor |
| tools/NetworkDiagram.js:3011-3025 | update() keeps every child of the connections group that is not a flow path, so the old connection paths stay drawn, while `this.connections` and `this.monitoringConnections` are reset to list only the new ones | overlay on, any update() (a form change, a resize), overlay off: the monitoring paths drawn before the update stay shown | the old connections cleared, as the comment above the filter states, so turning the overlay off hides every monitoring path | medium, not executed | NodeDiagramModel.StaleMonitoringPathAfterUpdate | NodeDiagramModel.NoStaleMonitoringPathWhenCleared |

The handlers keep `update()` as written: `HandleResize` calls `Update`. The constructor's
first update starts from no paths, where `Update` and `UpdateClearingConnections` agree.
