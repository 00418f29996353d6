# Remnant inventory: shape geometry and material store, in Dafny

This project models the core of a small React application for recording remnant materials. A user names a
material, picks a shape family (`rectangle`, `L-shape`, `U-shape`) and edits its dimensions. Edits are
either typed into a dialog opened by clicking an edge of the drawn shape, or made by dragging an edge of
the U-shape. The materials are kept in a list that can be added to, updated, reordered by drag and drop,
and searched. The component also defines a delete operation, but as written nothing calls it: the delete
icon only records an index for a confirmation dialog that is never rendered (see "## Findings").

Modules (one per source file, plus shared helpers):

- `Geometry` (geometry.dfy): points, boxes, hit strips, and the `H`/`V` commands of the outline paths. A
  path is traced into its vertex list (`Trace`). Also the shoelace signed area.
- `ShapeVisualizer` (shape_visualizer.dfy): `src/ShapeVisualizer.js`. Rectangle and L-shape outlines, edge
  strips, extent and padded viewBox, over records (`RectDims`, `LDims`) and over the application's
  dimension map.
- `UShapeVisualizer` (ushape_visualizer.dfy): `src/UShapeVisualizer.js`. The 8-vertex outline, the three
  drag handles, the viewBox and the drag protocol. The protocol is given as a pure transition function
  (`Step`, `Run`) and as the class `UShapeEditor`, whose methods `BeginDrag`, `Move` and `EndDrag` are proved
  against `Step`.
- `Lists`, `Text` (lists.dfy, text.dfy): `splice` removal and insertion, the drag reorder, `filter`; ASCII
  `toLowerCase`, `includes`, and `trim` with JavaScript's whitespace set.
- `App` (app.dfy): `src/App.js`. The draft material, the shape defaults, the typed dimension edit, the
  list operations, and the class `MaterialStore` holding the component state.

Dimensions are exact `real`s, so halving a drag delta is exact. A dimension key that is absent from a
material's map is JavaScript `undefined`: it produces NaN coordinates or a malformed path. The model
returns `None` for that drawing part instead of requiring the key to be present.

The material array is a `seq<Slot>` with `Slot = Hole | Undefined | Item(material)`. JavaScript arrays
behave this way:

- `updated[editIndex] = newMaterial` with `editIndex` past the end leaves holes. That needs a list that
  has shrunk since the edit began, so it needs `deleteMaterial` (src/App.js:169-177), which nothing in the
  component calls. With the delete wired up it is reachable: edit the last of three materials, delete the
  first one twice, then press "Update" (`DeleteThenUpdateLeavesHole`). Without it every slot holds a
  material: `MaterialStore.Dense` holds initially and `AddMaterial`, `EditMaterial` and `OnDragEnd` keep
  it, and then `Visible` always has a value.
- `filter` skips holes, so a delete drops them and the search view does not see them.
- Copying with spread (`[...prev]` in `addMaterial`) or `Array.from` (in `onDragEnd`) turns each hole
  into an explicit `undefined` entry. The search filter reads `.name` of every entry it visits, so a list
  holding `undefined` has no view: `FilteredMaterials` returns `None`. Once a hole exists, the next add,
  update or reorder produces such a list. `AppendAfterHoleLosesView` proves this for an add.

Quirks of the code that the model keeps:

- The rectangle is traced down the left edge first: `(0,0),(0,length),(width,length),(width,0)`.
- With positive dimensions the rectangle's signed area is negative. So is the L-shape's when
  length2 <= length1; with length2 > length1 it can be positive. No winding is claimed for the U-shape
  outline. The U-shape's closing edge runs diagonally from `(width, lengthLeft)` to the origin
  (`UClosingEdgeDiagonal`).
- `length2 <= length1` is not enforced for the L-shape. With `length2 > length1` the `side-left2` strip
  starts above the origin, and with `length2 > length1 + 30` it leaves the viewBox (`LFitsViewBox`).
- The U-shape visualizer takes no props. It keeps its own dimensions, initialised to
  `{width:25, lengthTop:60, lengthLeft:60, lengthRight:60}`, so its drags never reach the material.
  The defaults the application stores for `U-shape` use different keys (`width1` … `length3`).
- A second `mousedown` before `mouseup` is not ignored. It registers a second gesture whose listeners run
  alongside the first. The model keeps the list of registered gestures, and "idle" is the empty list.
- Typed edits exist only for the rectangle and the L-shape. U-shape edges are drag-only.

## Model

| member | source | states |
|---|---|---|
| `Geometry.Trace` | src/ShapeVisualizer.js:22-24 | a path of n `H`/`V` commands after `M0 0` visits n + 1 vertices, starting at the origin |
| `Geometry.TraceStep` | src/UShapeVisualizer.js:52-62 | each vertex is the previous one moved to the command's absolute x (`H`) or y (`V`) |
| `Geometry.TraceEdgesAxisAligned` | src/UShapeVisualizer.js:52-62 | every edge drawn by `H`/`V` commands is horizontal or vertical |
| `Geometry.Max` | src/ShapeVisualizer.js:135-138 | `Math.max`: no smaller than either argument and equal to one of them |
| `ShapeVisualizer.RectOutline` | src/ShapeVisualizer.js:22 | the rectangle outline has 4 vertices |
| `ShapeVisualizer.RectOutlineVertices` | src/ShapeVisualizer.js:22 | the outline is exactly `(0,0),(0,length),(width,length),(width,0)` (down first) |
| `ShapeVisualizer.LOutline` | src/ShapeVisualizer.js:24 | the L-shape outline has 6 vertices |
| `ShapeVisualizer.LOutlineVertices` | src/ShapeVisualizer.js:24 | the outline is exactly `(0,0),(0,length1),(width2,length1),(width2,length2),(width1,length2),(width1,0)` |
| `ShapeVisualizer.OutlinesRectilinear` | src/ShapeVisualizer.js:22-24 | both closed outlines, closing edge included, have only horizontal and vertical edges |
| `ShapeVisualizer.RectEnclosedArea` | src/ShapeVisualizer.js:22 | the rectangle's twice signed area is -2·width·length, negative for positive dimensions |
| `ShapeVisualizer.LEnclosedArea` | src/ShapeVisualizer.js:24 | twice the signed area is -2·(width1·length2 + width2·(length1 − length2)): for length2 <= length1, a width1×length2 block plus a width2×(length1 − length2) block; negative for positive dimensions with length2 <= length1 |
| `ShapeVisualizer.RectSides` | src/ShapeVisualizer.js:44-83 | four strips with ids side-top, side-bottom, side-left, side-right; top and bottom bound to "length", left and right to "width" |
| `ShapeVisualizer.LSides` | src/ShapeVisualizer.js:84-122 | four strips with ids side-top1, side-right1, side-bottom1, side-left2, bound to width1, length1, width2, length2 |
| `ShapeVisualizer.RectSidesHugOutline` | src/ShapeVisualizer.js:44-83 | each strip is a 10-thick band just outside one outline edge and spans it: top at y = -10 and bottom at y = length, both width wide; left at x = -10 and right at x = width, both length tall |
| `ShapeVisualizer.LSidesBindings` | src/ShapeVisualizer.js:84-122 | each strip's box in outline terms: top1 (0,-10,width1,10) above the top edge; right1 (width1,0,10,length1), reaching length1 although that outline edge ends at length2; bottom1 (0,length1,width2,10) below the bottom edge; left2 (width1+width2, length1−length2, 10, length2), ending at y = length1, above the origin exactly when length2 > length1 |
| `ShapeVisualizer.LLeft2DetachedFromOutline` | src/ShapeVisualizer.js:113-121 | for positive widths the `side-left2` strip lies right of every outline vertex |
| `ShapeVisualizer.RectViewBox` | src/ShapeVisualizer.js:140-150 | the rectangle's extent width × length with 30 of padding on every side |
| `ShapeVisualizer.LViewBox` | src/ShapeVisualizer.js:130-150 | the L-shape's extent (width1 + width2) × the larger length, with 30 of padding on every side |
| `ShapeVisualizer.RectFitsViewBox` | src/ShapeVisualizer.js:130-150 | for non-negative dimensions, every outline vertex and every strip lies in the padded viewBox |
| `ShapeVisualizer.LFitsViewBox` | src/ShapeVisualizer.js:130-150 | for non-negative dimensions the outline fits; all strips fit if and only if length2 <= length1 + 30 |
| `ShapeVisualizer.RectDimsOf` | src/ShapeVisualizer.js:22 | the rectangle's record exists exactly when "width" and "length" are present, and holds their values |
| `ShapeVisualizer.LDimsOf` | src/ShapeVisualizer.js:24 | the L record exists exactly when its four keys are present, and holds their values |
| `ShapeVisualizer.ShapePath` | src/ShapeVisualizer.js:19-28 | "rectangle" gives `RectOutline` and "L-shape" gives `LOutline` of the map's values, present exactly when their keys are; any other name gives the empty path |
| `ShapeVisualizer.RenderSides` | src/ShapeVisualizer.js:41-128 | "rectangle" gives `RectSides` and "L-shape" gives `LSides` of the map's values, present exactly when their keys are; any other name gives no strips |
| `ShapeVisualizer.SvgWidth` | src/ShapeVisualizer.js:130-133 | width1 + width2 for the L-shape, width otherwise; undefined when a key is absent |
| `ShapeVisualizer.SvgHeight` | src/ShapeVisualizer.js:135-138 | the larger of length1 and length2 for the L-shape, length otherwise |
| `ShapeVisualizer.ViewBox` | src/ShapeVisualizer.js:140-150 | origin (-30,-30), size extent + 60 on each axis; equals `RectViewBox`/`LViewBox` of the map's values when the shape's keys are present |
| `ShapeVisualizer.Render` | src/ShapeVisualizer.js:145-160 | "U-shape" and only it is delegated; any other name draws `ViewBox`, `ShapePath` and `RenderSides` of the map |
| `ShapeVisualizer.RenderDispatch` | src/ShapeVisualizer.js:145-160 | "U-shape" is handed to the U visualizer whatever the dimensions; an unknown name draws an empty path and no strips |
| `ShapeVisualizer.OutlineInsideViewBox` | src/ShapeVisualizer.js:140-150 | through the component, for non-negative dimensions, every outline vertex is inside the viewBox |
| `UShapeVisualizer.UOutline` | src/UShapeVisualizer.js:50-63 | the U outline has 8 vertices |
| `UShapeVisualizer.UOutlineVertices` | src/UShapeVisualizer.js:50-63 | the outline is exactly the 8 listed vertices from (0,0) to (width,lengthLeft) |
| `UShapeVisualizer.UClosingEdgeDiagonal` | src/UShapeVisualizer.js:52-62 | seven edges are axis-aligned; the polygon is rectilinear only if width or lengthLeft is 0 |
| `UShapeVisualizer.DragHandles` | src/UShapeVisualizer.js:65-101 | three handles bound to lengthTop, lengthLeft, lengthRight in that order |
| `UShapeVisualizer.HandlesAlongOutline` | src/UShapeVisualizer.js:65-101 | top handle (0,-10,lengthTop,10) above the first edge; left handle (-10,0,10,lengthLeft); right handle spans outline vertices 3 to 5 |
| `UShapeVisualizer.ViewBox` | src/UShapeVisualizer.js:103-107 | as written: from the outline's first vertex (the origin) to its far corner (lengthTop + width, lengthLeft + lengthRight) |
| `UShapeVisualizer.UOutlineInsideViewBox` | src/UShapeVisualizer.js:103-107 | for non-negative dimensions the outline and the right handle lie in `0 0 (lengthTop+width) (lengthLeft+lengthRight)` |
| `UShapeVisualizer.TopAndLeftHandlesOutsideViewBox` | src/UShapeVisualizer.js:103-107 | the top and left handles share no interior point with that viewBox |
| `UShapeVisualizer.PaddedViewBox` | src/UShapeVisualizer.js:103-107 | corrected: the viewBox as written grown by the handle thickness 10 on every side |
| `UShapeVisualizer.HandlesInsidePaddedViewBox` | src/UShapeVisualizer.js:103-107 | with the viewBox padded by 10 on every side, the outline and all three handles are inside |
| `UShapeVisualizer.Dragged` | src/UShapeVisualizer.js:19-39 | a move changes only the dragged key, which ends at least 10; the width never changes; an unknown side changes nothing |
| `UShapeVisualizer.DraggedValue` | src/UShapeVisualizer.js:20-37 | the dragged key becomes max(10, baseline + delta/2): x-delta for lengthTop, y-delta for lengthLeft and lengthRight |
| `UShapeVisualizer.DragRightArmExample` | src/UShapeVisualizer.js:33-37 | baseline 60: dy = 20 gives 70, dy = -200 gives 10 |
| `UShapeVisualizer.DragMonotonic` | src/UShapeVisualizer.js:20-36 | for a fixed baseline, a larger delta along the drag axis never gives a smaller value |
| `UShapeVisualizer.ApplyAll` | src/UShapeVisualizer.js:19-47 | a mousemove runs every registered gesture's listener in order; the width is untouched |
| `UShapeVisualizer.ApplyAllFrame` | src/UShapeVisualizer.js:23-38 | a move leaves every key no registered gesture drags unchanged |
| `UShapeVisualizer.ApplyAllOverwrites` | src/UShapeVisualizer.js:17-37 | a move's result depends on the current dimensions only through the undragged keys |
| `UShapeVisualizer.MoveAfterMove` | src/UShapeVisualizer.js:17-37 | a later move overwrites an earlier one: moves do not accumulate |
| `UShapeVisualizer.Step` | src/UShapeVisualizer.js:13-48 | mousedown adds one gesture holding the pointer and a dimension snapshot; mousemove keeps the gestures and changes only keys they drag (nothing when idle); mouseup removes every gesture; the width never changes |
| `UShapeVisualizer.Run` | src/UShapeVisualizer.js:13-48 | a sequence of events keeps the width, and one that ends with mouseup leaves no gesture registered |
| `UShapeVisualizer.ApplyAllFloored` | src/UShapeVisualizer.js:24-37 | a move keeps the width at 25 and every length at least 10 |
| `UShapeVisualizer.RunKeepsFloor` | src/UShapeVisualizer.js:3-48 | from the initial state no sequence of pointer events makes a length smaller than 10 or changes the width |
| `UShapeVisualizer.MovesCollapseToLast` | src/UShapeVisualizer.js:17-37 | a burst of moves leaves the same state as its last move alone |
| `UShapeVisualizer.MovesAfterMouseUpIgnored` | src/UShapeVisualizer.js:41-44 | after mouseup, further moves change nothing |
| `UShapeVisualizer.UShapeEditor.constructor` | src/UShapeVisualizer.js:3-11 | the initial dimensions are {width:25, lengthTop:60, lengthLeft:60, lengthRight:60}, with no gesture |
| `UShapeVisualizer.UShapeEditor.BeginDrag` | src/UShapeVisualizer.js:13-17 | registers a gesture with the pointer position and a snapshot of the current dimensions; the dimensions are unchanged |
| `UShapeVisualizer.UShapeEditor.Move` | src/UShapeVisualizer.js:19-39 | applies every registered gesture; nothing when idle; with one gesture, exactly `Dragged` |
| `UShapeVisualizer.UShapeEditor.EndDrag` | src/UShapeVisualizer.js:41-44 | removes every gesture; the dimensions stay as last set |
| `Lists.RemoveAt` | src/App.js:200 | `splice(i, 1)` shortens by one, shifts the tail left and removes exactly one copy of s[i] |
| `Lists.InsertAt` | src/App.js:201 | `splice(i, 0, x)` lengthens by one, puts x at i and shifts the tail right |
| `Lists.RemoveInserted` | src/App.js:199-201 | removing what was inserted at i restores the sequence |
| `Lists.Move` | src/App.js:199-201 | the drag reorder keeps the length and the multiset and puts the moved item at the destination |
| `Lists.MoveSpec` | src/App.js:199-201 | every item other than the moved one keeps its relative order: dropping the moved item from either side gives the same sequence |
| `Lists.MoveInPlace` | src/App.js:199-201 | dropping an item where it was changes nothing |
| `Lists.Filter` | src/App.js:208-212 | filtering never lengthens the list; `FilterCount`, `FilterAppend` and `FilterIsSubsequence` give what it keeps |
| `Lists.FilterCount` | src/App.js:208-212 | every element that passes is kept as often as it occurs, no other element is kept |
| `Lists.FilterAppend` | src/App.js:208-212 | filtering a concatenation filters each part: kept elements stay in input order |
| `Lists.FilterIsSubsequence` | src/App.js:208-212 | the result is an order-preserving subsequence of the input |
| `Lists.FilterMembership` | src/App.js:208-212 | an element is kept exactly when it is in the input and passes the test |
| `Lists.FilterKeepsAll` | src/App.js:208-212 | when every element passes, the result is the input |
| `Text.LowerChar` | src/App.js:210-211 | 'A'..'Z' become 'a'..'z' (code point + 32); every other character is unchanged |
| `Text.Lower` | src/App.js:210-211 | same length, and each character is `LowerChar` of the input's |
| `Text.Includes` | src/App.js:210-211 | a match needs a needle no longer than the haystack; the empty needle is in every string |
| `Text.IncludesIffOccurs` | src/App.js:210-211 | `includes` holds exactly when the needle occurs at some offset |
| `Text.IncludesEmptyAndSelf` | src/App.js:210-211 | every string includes the empty string and itself |
| `Text.TrimStart` | src/App.js:128 | removes a blank prefix and leaves a suffix that does not start with whitespace |
| `Text.TrimEnd` | src/App.js:128 | removes a blank suffix and leaves a prefix that does not end with whitespace |
| `Text.Trim` | src/App.js:128 | `trim()` is a slice of the input between a blank prefix and a blank suffix, starting and ending with non-whitespace |
| `Text.TrimEmptyIffBlank` | src/App.js:128 | `trim()` is empty exactly when the name is all whitespace |
| `App.EditDimension` | src/App.js:116-125 | a value <= 0 leaves the material unchanged; otherwise exactly that key is set to the value; name, shape and other keys are kept |
| `App.EditDimensionKeepsPositive` | src/App.js:116-125 | typed edits keep all dimensions positive; repeating an edit is idempotent |
| `App.EditDimensionExamples` | src/App.js:116-125 | width -5 and 0 are ignored; width 42 is stored as 42 |
| `App.DefaultDimensions` | src/App.js:214-240 | the defaults are positive; an unknown shape gets the empty map |
| `App.DefaultsMatchVisualizerKeys` | src/App.js:216-227 | rectangle defaults are exactly {width:40, length:25} and L-shape defaults {width1:25, length1:60, width2:40, length2:25}: the keys the outline reads |
| `App.RectangleDefaultsDrawn` | src/App.js:217-218 | the default rectangle draws (0,0),(0,25),(40,25),(40,0) in the viewBox (-30,-30,100,85) |
| `App.LShapeDefaultsDrawn` | src/App.js:220-226 | the default L draws 6 vertices and its `side-left2` strip starts at x = 65 |
| `App.UShapeDefaultsUseOtherKeys` | src/App.js:228-236 | the U-shape defaults share no key with the U visualizer's dimensions |
| `App.Items` | src/App.js:208-212 | the materials of the array, holes and `undefined` entries skipped: exactly those stored in some slot; with `ItemsCount`, `ItemsAppend` and `ItemsDense` for count and order |
| `App.ItemsCount` | src/App.js:208-212 | each material occurs among the items as often as it is stored |
| `App.ItemsAppend` | src/App.js:208-212 | the items of a concatenation are the items of each part, in order |
| `App.ItemsDense` | src/App.js:208-212 | when every slot holds a material, the items are those materials index for index |
| `App.Compact` | src/App.js:170 | dropping holes leaves no hole; `CompactCount` and `CompactAppend` give what is kept and in which order |
| `App.CompactCount` | src/App.js:170 | dropping holes keeps every other slot as often as it occurs, and so exactly the slots that are not holes |
| `App.CompactAppend` | src/App.js:170 | dropping holes from a concatenation drops them from each part: other slots keep their order |
| `App.CompactDense` | src/App.js:170 | a list without holes is unchanged by dropping holes |
| `App.Assign` | src/App.js:144-148 | `updated[i] = x` replaces slot i inside the array, or grows it to i + 1 slots with holes in between; other slots are kept |
| `App.AssignKeepsPositive` | src/App.js:144-148 | writing a material with positive dimensions keeps every stored material positive |
| `App.Spread` | src/App.js:145 | `[...a]`: same length, every hole an explicit `undefined`, every other slot kept; a list without holes is copied unchanged |
| `App.SpreadKeepsItems` | src/App.js:137 | spreading keeps the stored materials, and gives an `undefined` entry exactly when there was a hole or one already |
| `App.SpreadKeepsPositive` | src/App.js:145 | spreading keeps every stored material positive |
| `App.KeepAllBut` | src/App.js:170 | the index filter never lengthens the list, leaves no hole and adds no slot |
| `App.DeleteAt` | src/App.js:169-177 | deleting never lengthens the list, leaves no hole and adds no slot |
| `App.KeepAllButIsRemoveAt` | src/App.js:170 | the index filter is removal at the index (when in range) followed by dropping holes |
| `App.DeleteAtSpec` | src/App.js:170 | on a list without holes, delete removes exactly the element at the index and keeps order; out of range changes nothing |
| `App.DeleteAtKeepsPositive` | src/App.js:169-177 | deleting keeps every stored material positive |
| `App.Reorder` | src/App.js:195-206 | no destination: unchanged; otherwise the `Array.from` copy, permuted, with the moved slot at the destination, the others in relative order, and no hole left |
| `App.ReorderKeepsPositive` | src/App.js:195-206 | reordering keeps every stored material positive |
| `App.Matches` | src/App.js:208-212 | the empty term, and a term equal to the name up to case, always match |
| `App.FilteredMaterials` | src/App.js:208-212 | no view exactly when an `undefined` entry is stored; otherwise an order-preserving subsequence of the items holding each matching material as often as it is stored and no other; the empty term keeps all |
| `App.FilterSpec` | src/App.js:208-212 | the search filter over any material sequence: subsequence, membership, each match kept with its multiplicity, the empty term keeps all |
| `App.SearchIgnoresCase` | src/App.js:208-212 | a term and its lower-cased form select the same materials |
| `App.FoundByOwnName` | src/App.js:208-212 | a stored material is found by searching for its own name whenever the list has a view, which is exactly when no `undefined` entry is stored |
| `App.FilteredMaterialsAppend` | src/App.js:208-212 | the view of a list split anywhere is the view of the first part followed by that of the second: the view keeps the stored order |
| `App.AppendAfterHoleLosesView` | src/App.js:137 | once the list has a hole, appending to its spread copy leaves a list with no view |
| `App.AddKeepsAllItems` | src/App.js:137 | appending to the spread copy of a list of materials gives a list of materials one longer |
| `App.UpdateKeepsAllItems` | src/App.js:144-148 | writing inside a list of materials keeps its length and leaves every slot a material |
| `App.ReorderKeepsAllItems` | src/App.js:199-201 | reordering a list of materials leaves every slot a material |
| `App.DeleteThenUpdateLeavesHole` | src/App.js:169-177 | two deletes at index 0 shrink three materials to the last one, and an update at the old index 2 then leaves a hole at index 1 |
| `App.MaterialStore.constructor` | src/App.js:82-95 | empty list, initial draft, no edit (-1), step 0, no delete target (-1), empty search; `Dense` holds |
| `App.MaterialStore.SetName` | src/App.js:108-114 | only the draft's name changes |
| `App.MaterialStore.HandleDimensionChange` | src/App.js:116-125 | the draft becomes `EditDimension` of it; nothing else changes |
| `App.MaterialStore.HandleShapeSelect` | src/App.js:214-248 | the draft keeps its name and gets the shape and its defaults; the step becomes 2 |
| `App.MaterialStore.NextStep` | src/App.js:282 | the step becomes 1 |
| `App.MaterialStore.HandleBack` | src/App.js:255-257 | the step goes down by one and never below 0 |
| `App.MaterialStore.AddMaterial` | src/App.js:127-158 | a blank name changes nothing; otherwise the spread copy of the list with the draft appended (edit index -1) or written at the edit index, then the draft, the edit index and the step are reset; `Dense` is kept |
| `App.MaterialStore.EditMaterial` | src/App.js:160-167 | the draft becomes the stored material, the edit index is set, the step becomes 0; `Dense` is kept |
| `App.MaterialStore.HandleDeleteClick` | src/App.js:179-182 | only the delete index changes; the list is left as it was, so the delete icon (line 455) deletes nothing |
| `App.MaterialStore.DeleteMaterial` | src/App.js:169-177 | the list becomes `DeleteAt` of it, which `DeleteAtSpec` shows removes exactly that index; the edit index is not adjusted |
| `App.MaterialStore.OnDragEnd` | src/App.js:195-206 | the list becomes `Reorder` of it; `Dense` is kept |
| `App.MaterialStore.SetSearchTerm` | src/App.js:397 | only the search term changes |
| `App.MaterialStore.Visible` | src/App.js:208-212 | no view exactly when an `undefined` entry is stored, so always a view when every slot is a material; otherwise an order-preserving subsequence of the stored items holding each match as often as it is stored |

## Findings

| source | as written | input that shows it | evidently intended | confidence | as-written member | corrected member |
|---|---|---|---|---|---|---|
| src/UShapeVisualizer.js:103-107 | the viewBox is `0 0 (lengthTop+width) (lengthLeft+lengthRight)` with no padding, but the top handle is at y in [-10, 0] and the left handle at x in [-10, 0] | the initial dimensions: viewBox [0,85]×[0,120]; top handle [0,60]×[-10,0]; left handle [-10,0]×[0,60]. An inline SVG clips to its viewport, so only the right handle can be grabbed | a viewBox padded enough to contain all three handles, as the other visualizer pads by 30 | medium, not executed | `UShapeVisualizer.TopAndLeftHandlesOutsideViewBox` | `UShapeVisualizer.HandlesInsidePaddedViewBox` |
| src/App.js:179-182 | the delete icon (line 455) runs only `handleDeleteClick`, which stores the index and opens a confirmation dialog that is never rendered; `deleteMaterial` (lines 169-177) is called from nowhere, so the list never shrinks | any list and a click on any card's delete icon: the list is unchanged afterwards | the delete icon, after confirmation, removes that material with `deleteMaterial` | high, not executed | `App.MaterialStore.HandleDeleteClick` (its frame leaves the list as it was; `App.UpdateKeepsAllItems` shows that without deletes no hole arises) | `App.MaterialStore.DeleteMaterial` (with `App.DeleteAtSpec`) |

## Left out

- React and Material-UI rendering: JSX, styles, theme and dark mode, colours, snackbar messages, and the
  open flags of the dialogs. These are presentation only.
- `localStorage` loading and saving (src/App.js:97-106) and the JSON export through a generated link
  (src/App.js:184-193). These are I/O. The store starts empty. Saving would also write holes and
  `undefined` entries as `null`.
- The dimension dialog and `handleSideClick` (src/App.js:250-253, 485-517). The model calls
  `HandleDimensionChange` with the key and value directly.
- Registering and removing DOM listeners, and `preventDefault`. Only the set of registered gestures is
  kept.
- The drag-and-drop library itself: its events, animation and placeholder. Only the result it reports is
  modelled.
- `Number(value)` on typed text. Typed values are taken as numbers.
- SVG path and attribute string formatting. Outlines are vertex lists.
- IEEE floating point. Dimensions are exact reals.
- Unicode `toLowerCase`. Only ASCII letters are folded.
- `ShapeVisualizer.ShapePath`: when a key is absent the whole outline is `None`. A browser would draw the
  path up to the first `undefined` coordinate.
- `ShapeVisualizer.RenderSides`: when a key is absent the whole strip list is `None`. Strips whose own
  attributes are defined would still be drawn.
- `ShapeVisualizer.ViewBox`: a NaN width or height makes the whole viewBox `None`.
- `App.MaterialStore.EditMaterial`: requires the chosen slot to hold a material. Choosing a hole or an
  `undefined` entry sets the draft to `undefined`, which the next render dereferences.
- `App.MaterialStore.OnDragEnd`: requires both indices to be inside the list, which the drag-and-drop
  library guarantees. `splice`'s clamping of out-of-range and negative indices is not modelled.
- Which material an index names. The edit and delete buttons (src/App.js:450, 455) and the drag-and-drop
  library pass the card's index in the filtered view, but `editMaterial` and `onDragEnd` apply it to the
  full list, and the delete button's index is only stored (it would reach `deleteMaterial` if anything
  called that). The model's `EditMaterial`, `HandleDeleteClick` and `OnDragEnd`
  take an index into the full list. So with a search term that hides earlier materials, the model does not
  show that a click edits, deletes or moves a different material from the one on the card.
