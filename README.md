# Permaculture guild designer: placement and compatibility engine

A Dafny model of the logic inside the Minnesota permaculture design app
(`src/App.tsx`). A user drags plants from a catalog onto a 1000 x 800 canvas,
moves and removes them, and the app judges each pair of placed plants for
spacing and ecological compatibility and sums the cost and yield of the design.

Modules, one per component:

- `Plants` (`plants.dfy`): the catalog record reduced to the fields the logic
  reads (id, spacing, layer, nitrogen fixer, compatible guilds, price, annual
  yield) and the seven-plant catalog as a constant.
- `Compatibility` (`compatibility.dfy`): `checkCompatibility` as the function
  `Evaluate`, a first-match-wins chain. The rules are spacing violation, then
  overstory beside a nitrogen fixer, then groundcover beside another layer,
  then shared guilds, then neutral. The verdict's reason is a datatype variant.
- `Canvas` (`canvas.dfy`): the canvas size and the `max(0, min(v, limit - spacing))` clamp.
- `Placement` (`placement.dfy`): the list of placed plants as the class
  `Store`. Its field `placed` is a `seq` that the methods `Drop` (append),
  `Remove` (filter) and `Move` (map) reassign. The class also holds the catalog
  plant being dragged in and the selected placed plant.
- `Inspection` (`inspection.dfy`): the neighbour query `getCompatibilityIssues`,
  the `hasIssues` flag, and the `reduce` totals for investment and annual yield.
- `Drag` (`drag.dfy`): the per-plant drag state (`isDragging`, `dragOffset`) as
  the class `Handle`. Its methods are the mouse down, move and up handlers.
- `Scenarios` (`scenarios.dfy`): the engine on concrete catalog plants.

Browser inputs become parameters. All of these are passed in:

- the pointer position;
- the on-screen corner of the design area, which receives drops;
- the on-screen corner of the design content, where plants are drawn and which drags measure against (or its absence);
- the corner of the pressed footprint;
- whether the press hit the remove button;
- the `Date.now()` part of a new id (`stamp`).

Coordinates are `real`. The Euclidean distance of the neighbour query is used
only through its square: `EvaluateSquared` compares the squared distance with
the squared required spacing. `EvaluateSquaredAgrees` proves this equals
`Evaluate` on the distance itself.

The model follows the code on these points:

- Shared guilds are listed in the first plant's order.
- Removal deletes every entry carrying the id. `RemoveUniqueDeletesOne` proves that this is one entry when ids are unique.
- Moving does not clamp; only the drag handler clamps before it moves.
- The verdicts' fixed reasons are the code's texts ("Nitrogen-fixing plant provides fertilizer for fruit tree", "Ground cover provides living mulch and soil protection", "Plants are compatible with proper spacing"), represented by the variants `NitrogenFertilizer`, `LivingMulch` and `ProperSpacing`.

## Model

| member | source | states |
|---|---|---|
| Plants.CatalogWellFormed | src/App.tsx:45-195 | the catalog has seven plants with distinct ids and footprints between 1 and 800 |
| Compatibility.RequiredSpacing | src/App.tsx:200 | the required clearance, the mean of both footprints, is never negative |
| Compatibility.Shared | src/App.tsx:227-229 | the shared list is no longer than the first plant's guilds and holds only guilds of both plants |
| Compatibility.Ecological | src/App.tsx:209-243 | every rule after the spacing check gives a compatible, non-harmful verdict |
| Compatibility.Evaluate | src/App.tsx:198-244 | spacing law: harmful exactly when the distance is below the required clearance; incompatible exactly when harmful, and then the reason carries the required clearance |
| Compatibility.EvaluateSquared | src/App.tsx:200-201 | on a squared distance: harmful exactly when it is below the squared clearance; incompatible exactly when harmful |
| Compatibility.EvaluateSquaredAgrees | src/App.tsx:425-431 | for a non-negative distance, judging by squares gives the same verdict as judging by the distance |
| Compatibility.EvaluateSquaredAgreesAll | src/App.tsx:425-431 | judging a squared distance by squares gives the verdict at each of its non-negative roots |
| Compatibility.SharedMembers | src/App.tsx:227-229 | a guild is shared exactly when it is in both plants' lists |
| Compatibility.SharedConcat | src/App.tsx:227-229 | the shared list keeps the first plant's order (it distributes over concatenation) |
| Compatibility.SharedAll | src/App.tsx:227-229 | when all of the first plant's guilds are in the second's, the shared list is the first plant's list unchanged |
| Compatibility.SharedEmpty | src/App.tsx:227-237 | the shared list is empty exactly when the plants have no guild in common |
| Compatibility.VerdictMeaning | src/App.tsx:209-243 | beneficial exactly when spacing is adequate and one of the three ecological rules holds; neutral exactly when spacing is adequate and none holds, with the proper-spacing reason |
| Compatibility.FirstMatchWins | src/App.tsx:209-237 | at adequate spacing the nitrogen rule pre-empts the groundcover rule, which pre-empts the shared-guild rule, whose reason lists the shared guilds in the first plant's order |
| Compatibility.SpacingSymmetric | src/App.tsx:200-207 | swapping the plants never changes whether they are compatible |
| Canvas.Clamp | src/App.tsx:393-394 | the result is at least 0 and, when the limit is not negative, at most the limit; a value already in range is returned; a negative limit gives 0 |
| Canvas.ClampX | src/App.tsx:314 | the horizontal anchor is never negative, keeps a footprint no wider than the canvas inside its width, and is left alone when already inside |
| Canvas.ClampY | src/App.tsx:315 | the vertical anchor is never negative, keeps a footprint no taller than the canvas inside its height, and is left alone when already inside |
| Canvas.ClampedFits | src/App.tsx:313-316 | a footprint no taller than the canvas always lands fully on the canvas after clamping |
| Canvas.ClampKeepsFitting | src/App.tsx:313-316 | clamping leaves a position that already fits unchanged |
| Canvas.ClampIdempotent | src/App.tsx:393-394 | clamping twice is clamping once |
| Canvas.ClampNearest | src/App.tsx:393-394 | the clamped value is the admissible value nearest the input |
| Placement.Without | src/App.tsx:407 | the kept entries are store entries with a different id, and there are no more of them than before |
| Placement.Matching | src/App.tsx:407 | the deleted entries are store entries carrying the id |
| Placement.MoveAll | src/App.tsx:414-418 | a move keeps the store's length |
| Placement.MoveOne | src/App.tsx:415-417 | an entry with the id gets the new anchor, any other entry is returned as it was, and plant and id never change |
| Placement.DropCentre | src/App.tsx:388-389 | the unclamped drop anchor puts the footprint's centre at the pointer, measured from the design area's corner |
| Placement.Dropped | src/App.tsx:387-396 | the new entry holds the dragged plant and id `<plant id>_<stamp>`; it fits the canvas when the plant is no taller than the canvas; when the centred anchor fits, it is that anchor, measured from the design area's corner |
| Placement.DropCentredInContent | src/App.tsx:387-389 | in the design content's coordinates, where plants are drawn, an unclamped drop is centred under the pointer exactly when the design area's and the content's corners coincide, and is otherwise off by their difference |
| Placement.WithoutMembers | src/App.tsx:407 | removal keeps exactly the entries whose id differs |
| Placement.WithoutConcat | src/App.tsx:407 | removal keeps the store order |
| Placement.WithoutAbsent | src/App.tsx:407 | removing an id that no entry carries changes nothing and deletes nothing |
| Placement.RemovalSplits | src/App.tsx:407 | every entry is either kept or deleted |
| Placement.RemoveUniqueDeletesOne | src/App.tsx:406-411 | with unique ids, removing a present id deletes exactly one entry |
| Placement.WithoutKeepsUnique | src/App.tsx:406-411 | removal keeps ids unique |
| Placement.MoveAllAt | src/App.tsx:414-418 | a move rewrites only the anchor of entries carrying the id; plants, ids and every other entry stay as they were |
| Placement.MoveAllAbsent | src/App.tsx:414-418 | moving an unknown id changes nothing |
| Placement.MoveAllKeepsFit | src/App.tsx:414-418 | a move to a position where every moved footprint fits keeps every entry on the canvas |
| Placement.MoveAllKeepsUnique | src/App.tsx:414-418 | a move keeps ids unique |
| Placement.AppendFreshKeepsUnique | src/App.tsx:395-398 | appending an entry with a fresh id keeps ids unique |
| Placement.Store.constructor | src/App.tsx:365-369 | the store starts empty, with no dragged plant and no selection |
| Placement.Store.DragStart | src/App.tsx:379-381 | a drag start records the plant being dragged |
| Placement.Store.Drop | src/App.tsx:383-400 | with no dragged plant nothing changes; otherwise exactly one entry, the clamped centred one, is appended after the unchanged old entries and the drag ends; placements on the canvas and unique ids (given a fresh id) are kept |
| Placement.Store.Remove | src/App.tsx:406-411 | the store becomes the filtered list; the selection is cleared exactly when it carries the id; placements on the canvas and unique ids are kept |
| Placement.Store.Move | src/App.tsx:414-418 | the store becomes the mapped list, with no clamping; unique ids are kept |
| Placement.Store.Select | src/App.tsx:509 | a click selects the clicked entry |
| Inspection.SquaredDistance | src/App.tsx:425-428 | the squared anchor distance is never negative |
| Inspection.PairVerdict | src/App.tsx:425-431 | the pair verdict is incompatible exactly when the pair is too close, and equals the compatibility at every non-negative root of the squared distance, i.e. at the Euclidean distance |
| Inspection.PairWith | src/App.tsx:424-433 | one row per other entry |
| Inspection.Neighbours | src/App.tsx:421-434 | the query has as many rows as entries with a different id; each row is a store entry with a different id, paired with its verdict from the queried plant's side |
| Inspection.HasIssues | src/App.tsx:286 | the issues flag holds exactly when another entry is closer than the pair's required clearance |
| Inspection.PairWithAt | src/App.tsx:424-433 | row k pairs the k-th other entry with its verdict |
| Inspection.NeighboursAt | src/App.tsx:421-434 | the query has one row per store entry whose id differs, in store order, each with the verdict from the queried plant's side |
| Inspection.NeighboursCover | src/App.tsx:421-434 | every entry with a different id appears in the query with its verdict |
| Inspection.NeighboursConcat | src/App.tsx:421-434 | the query keeps store order |
| Inspection.PairWithConcat | src/App.tsx:424-433 | pairing distributes over concatenation |
| Inspection.NeighbourCount | src/App.tsx:421-434 | with unique ids and the queried plant in the store, every other entry is a neighbour |
| Inspection.IncompatibleRowMeansCrowded | src/App.tsx:286 | an incompatible row means another entry is too close |
| Inspection.CrowdedMeansIncompatibleRow | src/App.tsx:286 | another entry that is too close yields an incompatible row |
| Inspection.TotalConcat | src/App.tsx:437-438 | totals add up over concatenation |
| Inspection.Reduce | src/App.tsx:437-438 | the left-fold `reduce` equals its starting value plus the reference sum |
| Inspection.TotalInvestment | src/App.tsx:437 | the total investment is the sum of the prices over the store |
| Inspection.AnnualYield | src/App.tsx:438 | the annual yield is the sum of the plants' annual yields over the store |
| Inspection.AppendRaisesTotals | src/App.tsx:437-438 | appending a plant raises each total by exactly its price and its yield |
| Inspection.MoveKeepsTotals | src/App.tsx:437-438 | a move changes neither total |
| Inspection.RemoveLowersTotals | src/App.tsx:437-438 | a removal lowers each total by exactly the values of the deleted entries |
| Drag.DragTarget | src/App.tsx:310-316 | the drag target fits the canvas for a footprint no taller than it, and equals the unclamped pointer minus the design content's corner minus grab offset whenever that fits |
| Drag.Handle.constructor | src/App.tsx:287-288 | a handle starts idle with a zero offset |
| Drag.Handle.MouseDown | src/App.tsx:290-301 | a press on the remove button changes nothing; any other press starts dragging and captures the pointer's offset from the footprint's corner |
| Drag.Handle.MouseMove | src/App.tsx:303-317 | idle, or without the design content, nothing changes; while dragging every entry with the handle's id moves to the clamped drag target; placements on the canvas and unique ids are kept |
| Drag.Handle.MouseUp | src/App.tsx:319-321 | a release always ends the drag |
| Drag.GrabPointStable | src/App.tsx:296-311 | the grab point stays under the pointer: moving the pointer by (dx, dy) asks for the anchor moved by (dx, dy) |
| Scenarios.AppleAlderAsymmetry | src/App.tsx:210-237 | apple beside black alder gets the nitrogen verdict, alder beside apple gets shared guild 6, so the two differ |
| Scenarios.ClassicGuildNeighbours | src/App.tsx:421-434 | apple at (300, 200) and elderberry at (150, 100): the one neighbour is beneficial through guild 6, and there is no issue |
| Scenarios.CrowdedGuild | src/App.tsx:200-207 | apple and elderberry 60 apart are harmful, with the 138-inch clearance as the reason |
| Scenarios.DragOffCanvas | src/App.tsx:303-317 | dragging an elderberry towards (-50, 900) leaves it at (0, 704) |
| Scenarios.PressOnRemoveButton | src/App.tsx:290-291 | a press on the remove button starts no drag, so a later move leaves the store unchanged |

## Left out

- Rendering, JSX, CSS classes, icons and the detail and info panels (src/App.tsx:246-275, 334-359, 440-669): user interface without logic.
- The drop and the drag measure against different elements. A drop measures from the design area, the element that receives it (src/App.tsx:387, 495-499). Plants are drawn in its child, the design content, and a drag measures from that (src/App.tsx:306-310, 500-512). The two corners differ by the area's scroll offset and padding, which come from CSS and scrolling that this model does not see. So a drop on a scrolled or padded area lands off the pointer by that difference; `DropCentredInContent` states this. A drag is not affected.
- The browser calls `getBoundingClientRect`, `document.querySelector` and the listener attach and detach in `useEffect` (src/App.tsx:296, 306-309, 323-332). Their results are parameters. The model does not capture that the handlers only run while the listeners are attached.
- The `react-dnd` provider: a foreign library.
- The `Date.now()` clock. Its rendering is the `stamp` parameter, and ids can collide as in the source.
- Compatibility.Evaluate: the reason texts are not built. The spacing message's rounded required clearance, its value in feet and the rounded actual distance are not modelled; the spacing reason carries the exact required clearance only.
- Inspection.Neighbours: the distance is never computed, because there is no square root over `real`. The model uses the squared distance, which gives the same verdicts (`EvaluateSquaredAgrees`).
- Floating-point rounding of JavaScript numbers: coordinates are exact reals, and prices, yields and footprints are integers as in the catalog.
- The template button's replacement of the whole design with a hard-coded list (src/App.tsx:643-656): every earlier placement is discarded, the list is stored unclamped, its catalog lookups are unchecked, and the selection is left pointing at a plant that may no longer be placed.
- The catalog search filter (src/App.tsx:371-377): a case-insensitive text match over descriptive fields that this model drops.
- The drag state is kept per placed plant, as in the source. Nothing stops two handles from dragging at once.
