# niidea-diagram: a verified model of the ER-diagram editor core

niidea-diagram is a browser editor for entity-relationship diagrams. Tables
("columns" in the code) hold fields. Relationships join one field to another.
The canvas can be zoomed, panned and snapped to a grid. A history engine keeps
an undo/redo log of actions.

This project models four parts of that editor in Dafny and proves properties of them:

- **History engine** (`HistoryContext.dfy`). A linear action log with a cursor. It covers add, undo, redo, jumping to a position, clearing, the 12-hour timestamp and record creation. `HistoryLog` is a class; its fields are the two React state cells.
- **Editor store and viewport** (`DiagramEditor.dfy`). It covers:
  - screen/diagram coordinate conversion;
  - zoom stepping;
  - grid rounding;
  - table creation;
  - the drag offset and z-order promotion;
  - magnetic alignment, a loop proved against a "last aligned check wins" specification;
  - the connection state machine;
  - table update and cascading delete.

  `EditorSession` is a class holding the editor's state cells.
- **Relationship drawing, discrete part** (`DiagramRelationship.dfy`). It covers:
  - lookup of both ends, with nothing drawn when one is missing;
  - the four anchor points of a field row;
  - the choice of facing anchors;
  - grid-point snapping;
  - the click cycle of the four cardinality types, with their label and end markers.

  `RelationshipView` holds the one local state cell, the type.
- **Table component** (`DiagramColumn.dfy`). It covers:
  - the field-list edits;
  - the add-field form, whose blank names are refused;
  - the rename box;
  - the routing of field clicks to the editor's connection calls.

  `ColumnEditor` holds the form state. Lemmas tie these edits to the relationship lines: renaming or retyping a field keeps every line where it was, and deleting a field makes its lines disappear.

Two more files hold shared pieces:

- `DiagramModel.dfy` has the data model, `Math.round`, grid rounding and the `find`/`findIndex` lookups.
- `Common.dfy` has decimal rendering of integers, `trim`, `padStart`, `filter` and `reverse` as JavaScript defines them.

Modelling choices:

- **Coordinates.** They are exact `real`s. Zoom is an integer percentage.
- **Rounding.** `Math.round(x)` is `Floor(x + 0.5)`, which matches JavaScript for negative halves.
- **Clock.** Clock readings (`Date.now()`, hours, minutes) are method parameters.
- **Pointer events.** They are client coordinates plus the editor's top-left corner on the page.
- **Parent callbacks.** The notifications (`onZoomChange`, `onToggleGrid`) are returned as out-parameters.
- **Table updates.** A call to `onUpdate` is returned as an `Update` value.
- **Object spread.** It is the right-biased map union `+`.
- **Missing values.** An unset relationship type (`undefined`) is the empty string. A missing `addColumn` argument is `None`.

Three behaviours of the code that a reader may not expect:

- The router applies grid snapping whenever its `snapToGrid` prop is true. The editor never passes that prop, so the default `true` with grid 20 always applies; `Route` takes both as parameters.
- The top anchor of row i is at `y + 22.5 + 17.5·i` (`FieldAnchors`), so it moves only half a row per row (`AnchorsStack`).
- Magnetic snapping measures against the tables as they were before the current move. The handler's closure still holds that list.

Two behaviours of the code are proved as observations:

- **Repeated relationship ids** (`RelationshipIdsCanRepeat`). Relationship ids are `rel-{count + 1}`, so after a delete a new relationship can reuse a surviving one's id. That id is also the React list key.
- **A new table can tie for the top** (`NewColumnMayNotBeOnTop`). A new table is stacked at the current table count. After a drag has promoted another table, the new one can come out level with it instead of on top.

## Model

| member | source | states |
|---|---|---|
| Common.NatToString | src/components/DiagramEditor.jsx:54-58 | `${n}` for a counter: a non-empty digit string without leading zero, one digit exactly below 10 |
| Common.ParseNatToString | src/components/DiagramEditor.jsx:54-55 | the rendered numeral reads back as the number, so counter ids carry their counter |
| Common.NatToStringInjective | src/components/DiagramEditor.jsx:54-55 | distinct counters render as distinct numerals |
| Common.PadStart | src/context/HistoryContext.jsx:87 | `padStart`: the result has the target width or more, ends with the input and is filled with the filler before it |
| Common.TrimStart | src/components/DiagramColumn.jsx:65 | removes exactly the leading JavaScript whitespace: a suffix of the input, not starting with whitespace, with only whitespace cut |
| Common.TrimEnd | src/components/DiagramColumn.jsx:65 | removes exactly the trailing JavaScript whitespace: a prefix of the input, not ending with whitespace, with only whitespace cut |
| Common.Trim | src/components/DiagramColumn.jsx:65 | `trim()`: both ends cut, as TrimStart and TrimEnd state; blank exactly when every character is whitespace (TrimEmptyIffBlank) |
| Common.TrimEmptyIffBlank | src/components/DiagramColumn.jsx:65 | `s.trim()` is empty exactly when every character of s is whitespace |
| Common.Filter | src/components/DiagramEditor.jsx:447-452 | `filter`: no longer than the input, keeps exactly the elements that pass |
| Common.FilterConcat | src/components/DiagramEditor.jsx:450-452 | filtering a concatenation filters each part in order, so survivors keep their order |
| Common.FilterAllPass | src/components/DiagramEditor.jsx:450-452 | a filter every element passes changes nothing |
| Common.FilterKeepsDistinctKeys | src/components/DiagramEditor.jsx:447 | filtering a list with distinct ids keeps the ids distinct |
| Common.Reverse | src/context/HistoryContext.jsx:64 | `reverse()` keeps the length; ReverseAt fixes every element, ReverseReverse and ReverseConcat its algebra |
| Common.ReverseAt | src/context/HistoryContext.jsx:64 | `reverse`: the k-th element of the result is the k-th from the end of the input |
| Common.ReverseReverse | src/context/HistoryContext.jsx:64 | reversing twice gives the original order |
| Common.ReverseConcat | src/context/HistoryContext.jsx:64 | the reverse of a concatenation is the reversed parts in swapped order |
| DiagramModel.Merge | src/components/DiagramEditor.jsx:440 | `{ ...col, ...updates }`: name and fields taken from the patch when present, everything else kept |
| DiagramModel.JsRound | src/components/DiagramEditor.jsx:50-51 | `Math.round(v)` is the integer in the half-open window (v - 1/2, v + 1/2] |
| DiagramModel.JsRoundUnique | src/components/DiagramEditor.jsx:50-51 | that integer is unique, so any integer in the window is the rounding |
| DiagramModel.RoundToGrid | src/components/DiagramEditor.jsx:50-51 | `Math.round(v / g) * g` is a multiple of g within g/2 of v |
| DiagramModel.ScaleWindow | src/components/DiagramEditor.jsx:161-164 | scaling the rounding window by the grid size gives the window around v |
| DiagramModel.RoundToGridKeepsGridPoints | src/components/DiagramEditor.jsx:161-164 | a coordinate already on the grid is not moved |
| DiagramModel.RoundToGridIdempotent | src/components/DiagramEditor.jsx:161-164 | rounding to the grid twice is rounding once |
| DiagramModel.Abs | src/components/DiagramEditor.jsx:224 | `Math.abs` is non-negative and equals the value or its negation |
| DiagramModel.FindIndex | src/components/DiagramEditor.jsx:84 | `findIndex` by a key: the first index whose key is the id, or -1 when none has it; the one search every lookup uses |
| DiagramModel.FindColumnIndex | src/components/DiagramEditor.jsx:84 | `findIndex`/`find` by id: the first index with that id, or -1 when none has it |
| DiagramModel.FindColumn | src/components/DiagramEditor.jsx:84-85 | `find`: the table at FindColumnIndex, or None for `undefined`; FindColumnNoneIff says when it fails |
| DiagramModel.FindFieldIndex | src/components/DiagramRelationship.jsx:18-19 | the first field with that id, or -1 when none has it |
| DiagramModel.FindField | src/components/DiagramRelationship.jsx:18-19 | `find` on fields: the field at FindFieldIndex, or None; RemoveFieldLeavesNoMatch and FindAfterFieldEdit use it |
| DiagramModel.FindColumnNoneIff | src/components/DiagramEditor.jsx:84-85 | a lookup fails exactly when no table has the id |
| HistoryContext.MakeAction | src/context/HistoryContext.jsx:97-103 | the record has the keys id, type, entity, timestamp and the details; details override id/type/entity but never the fresh timestamp |
| HistoryContext.Hour12 | src/context/HistoryContext.jsx:89 | `hours % 12 \|\| 12` lies in 1..12 and agrees with the hour modulo 12 |
| HistoryContext.Timestamp | src/context/HistoryContext.jsx:84-92 | `h:mm AM` from the clock; TimestampRoundTrip reads it back and TimestampInjective keeps times apart |
| HistoryContext.MinutesRoundTrip | src/context/HistoryContext.jsx:87 | minutes are written with exactly two digits that read back as the minutes |
| HistoryContext.TimestampRoundTrip | src/context/HistoryContext.jsx:84-92 | the timestamp reads back as the 12-hour hour, the minutes, and PM exactly when hours >= 12 |
| HistoryContext.HoursOfReading | src/context/HistoryContext.jsx:88-90 | the 12-hour hour together with AM/PM determines the 24-hour hour |
| HistoryContext.TimestampInjective | src/context/HistoryContext.jsx:84-92 | different clock times give different timestamps |
| HistoryContext.HistoryJump | src/context/HistoryContext.jsx:55-75 | the batch `goToHistoryPosition` returns; HistoryJumpNoneIff, HistoryJumpSteps, JumpThereAndBack and JumpsCompose fix it |
| HistoryContext.HistoryJumpNoneIff | src/context/HistoryContext.jsx:55-75 | a jump returns null exactly when the target is out of [0, length] or equals the cursor |
| HistoryContext.HistoryJumpSteps | src/context/HistoryContext.jsx:55-75 | the batch goes back exactly when the target is before the cursor, holds one action per step, newest first when undoing and oldest first when redoing |
| HistoryContext.JumpOneBackIsUndo | src/context/HistoryContext.jsx:35-42 | a jump one back yields the action `undo` would |
| HistoryContext.JumpOneForwardIsRedo | src/context/HistoryContext.jsx:45-52 | a jump one forward yields the action `redo` would |
| HistoryContext.JumpThereAndBack | src/context/HistoryContext.jsx:55-75 | a jump and the jump back replay the same actions in opposite directions and orders |
| HistoryContext.JumpsCompose | src/context/HistoryContext.jsx:55-75 | two jumps in one direction replay what one jump to the end replays |
| HistoryContext.HistoryLog.constructor | src/context/HistoryContext.jsx:17-19 | an empty log with the cursor at 0 |
| HistoryContext.HistoryLog.CanUndo | src/context/HistoryContext.jsx:117 | `currentPosition > 0`, the guard Undo's ensures turn on |
| HistoryContext.HistoryLog.CanRedo | src/context/HistoryContext.jsx:118 | `currentPosition < actions.length`, the guard Redo's ensures turn on |
| HistoryContext.HistoryLog.AddAction | src/context/HistoryContext.jsx:22-32 | the log becomes its first cursor-many actions plus the new one, the cursor moves past it, and nothing is left to redo |
| HistoryContext.HistoryLog.Undo | src/context/HistoryContext.jsx:35-42 | returns the action before the cursor and steps back exactly when the cursor is above 0; otherwise null and no change; the log is unchanged |
| HistoryContext.HistoryLog.Redo | src/context/HistoryContext.jsx:45-52 | returns the action at the cursor and steps forward exactly when the cursor is below the length; otherwise null and no change |
| HistoryContext.HistoryLog.GoToHistoryPosition | src/context/HistoryContext.jsx:55-75 | returns the jump's batch and moves the cursor to any in-range target, leaving it for an out-of-range one |
| HistoryContext.HistoryLog.ClearHistory | src/context/HistoryContext.jsx:78-81 | empty log, cursor 0, nothing to undo or redo |
| HistoryContext.HistoryLog.CreateAction | src/context/HistoryContext.jsx:95-107 | builds the stamped record, adds it as `addAction` does, and returns the record it appended |
| DiagramEditor.ToScreen | src/components/DiagramEditor.jsx:105-106 | diagram to screen, `p * zoom/100 + pan`; ToDiagramAfterToScreen and ToScreenAfterToDiagram make it and ToDiagram inverses |
| DiagramEditor.ToDiagram | src/components/DiagramEditor.jsx:46-47 | screen to diagram, `(q - pan) / (zoom/100)`, the inverse of ToScreen |
| DiagramEditor.ToDiagramAfterToScreen | src/components/DiagramEditor.jsx:155-156 | converting to the screen and back gives the diagram point |
| DiagramEditor.ToScreenAfterToDiagram | src/components/DiagramEditor.jsx:105-106 | converting to the diagram and back gives the screen point |
| DiagramEditor.ZoomStep | src/components/DiagramEditor.jsx:376-389 | `min(zoom + 10, 200)` / `max(zoom - 10, 30)`: from an allowed level a step is exactly 10 up or down unless it is already at the limit, and stays on the levels 30..200 in tens |
| DiagramEditor.ZoomAfterStaysValid | src/components/DiagramEditor.jsx:376-389 | any sequence of steps from an allowed level stays on allowed levels |
| DiagramEditor.ZoomInThenOut | src/components/DiagramEditor.jsx:378-380 | below 200, in then out returns to the same level |
| DiagramEditor.ZoomOutThenIn | src/components/DiagramEditor.jsx:378-380 | above 30, out then in returns to the same level |
| DiagramEditor.SnapPoint | src/components/DiagramEditor.jsx:161-164 | a drag target snapped to the grid is on the grid and within half a grid cell on each axis |
| DiagramEditor.ColumnId | src/components/DiagramEditor.jsx:54 | `column-${n}`; ColumnIdIssuedBefore and ColumnIdInjective make the counter ids fresh and distinct |
| DiagramEditor.ColumnIdIssuedBefore | src/components/DiagramEditor.jsx:54 | `column-k` counts as issued before n exactly when 1 <= k < n |
| DiagramEditor.ColumnIdInjective | src/components/DiagramEditor.jsx:54 | distinct counters give distinct table ids |
| DiagramEditor.ScreenCoordinate | src/components/DiagramEditor.jsx:40-43 | `x \|\| 50 + pan` with default 50: a missing argument gives 50, zero gives 50 plus the pan, anything else is kept; PlacementPoint's ensures build on it |
| DiagramEditor.PlacementPoint | src/components/DiagramEditor.jsx:40-51 | the new table's position is the screen point converted to the diagram, snapped to within half a cell of it on the grid when snapping is on; a zero argument means 50 plus the pan |
| DiagramEditor.PlacementExample | src/components/DiagramEditor.jsx:40-51 | `addColumn(103, 57)` at 100 percent with no pan and the grid on puts the table at (100, 60) |
| DiagramEditor.NewColumn | src/components/DiagramEditor.jsx:53-64 | the table `addColumn` builds: id `column-n`, name `Table n`, fields `field-n-1` (id, int, key) and `field-n-2` (name, string), 200 by 150; AddColumn's ensures and ColumnIdInjective rely on it |
| DiagramEditor.DragOffset | src/components/DiagramEditor.jsx:100-109 | the pointer's offset from the table's on-screen corner; DragRoundTrip pairs it with DragTarget |
| DiagramEditor.DragTarget | src/components/DiagramEditor.jsx:155-156 | the diagram position under the pointer minus that offset; DragRoundTrip and DragFollowsPointer state what it does |
| DiagramEditor.DragRoundTrip | src/components/DiagramEditor.jsx:105-109 | a move at the pointer where the drag started puts the table back at its own position |
| DiagramEditor.DragFollowsPointer | src/components/DiagramEditor.jsx:155-156 | a pointer move of (dx, dy) moves the table by (dx, dy) divided by the zoom factor |
| DiagramEditor.MaxZIndex | src/components/DiagramEditor.jsx:135 | the maximum stacking order: no table above it and some table at it |
| DiagramEditor.BringToFront | src/components/DiagramEditor.jsx:135-138 | only the tables with that id change, and only their zIndex, to the maximum plus one |
| DiagramEditor.BringToFrontIsOnTop | src/components/DiagramEditor.jsx:135-138 | the dragged table ends strictly above every other table |
| DiagramEditor.MoveColumn | src/components/DiagramEditor.jsx:176-180 | only the tables with that id change, and only their position |
| DiagramEditor.LastAlignedIndex | src/components/DiagramEditor.jsx:220-262 | the last check within the threshold, or -1; no later check is within it |
| DiagramEditor.AxisSnapAppend | src/components/DiagramEditor.jsx:224-227 | one more check overrides the axis when it aligns and leaves it otherwise |
| DiagramEditor.AxisSnapConcat | src/components/DiagramEditor.jsx:220-262 | later tables' checks override earlier ones' |
| DiagramEditor.AxisSnapStep | src/components/DiagramEditor.jsx:220-262 | one table's three checks continue the snap of the tables before it |
| DiagramEditor.CandidateOffsets | src/components/DiagramEditor.jsx:222-261 | each check's target is exactly its measured distance away from the proposed coordinate |
| DiagramEditor.ConcatOffsets | src/components/DiagramEditor.jsx:220-262 | that property survives joining the checks of several tables |
| DiagramEditor.MagneticSnapIsLocal | src/components/DiagramEditor.jsx:207-273 | an axis snaps exactly when some check on it is within 10, and it then moves by less than 10 |
| DiagramEditor.MagneticPosition | src/components/DiagramEditor.jsx:207-273 | the position `applyMagneticSnap` settles on, per axis the last aligned check's target; it is within 10 of the proposed position on each axis |
| DiagramEditor.LeftEdgeSnapExample | src/components/DiagramEditor.jsx:238-248 | near the left edge of one other table of equal width, the dragged table snaps to that table's x |
| DiagramEditor.AlignWith | src/components/DiagramEditor.jsx:220-261 | one loop iteration: the six checks override their axes in source order |
| DiagramEditor.MagneticSnap | src/components/DiagramEditor.jsx:207-262 | the loop's result is, per axis, the target of the last aligned check, or the proposed coordinate and no snap when none aligns |
| DiagramEditor.DragPosition | src/components/DiagramEditor.jsx:158-185 | where a drag move puts the table: on the grid and within half a cell of the target when snapping, magnetically aligned and within 10 of it otherwise |
| DiagramEditor.OtherColumns | src/components/DiagramEditor.jsx:447 | `filter(col => col.id !== id)`: no table with the id survives and every other table does |
| DiagramEditor.DetachColumn | src/components/DiagramEditor.jsx:450-452 | no surviving relationship has an end on the table and every other relationship survives |
| DiagramEditor.DetachColumnKeepsOrder | src/components/DiagramEditor.jsx:450-452 | the survivors keep their relative order |
| DiagramEditor.DetachUntouchedColumn | src/components/DiagramEditor.jsx:450-452 | deleting a table no relationship touches keeps all relationships |
| DiagramEditor.UpdateColumns | src/components/DiagramEditor.jsx:438-442 | the patch is merged into the tables with that id only; ids and order kept |
| DiagramEditor.FindAfterUpdate | src/components/DiagramEditor.jsx:438-442 | after an update the table with that id is found merged and other lookups are unchanged |
| DiagramEditor.RelationshipId | src/components/DiagramEditor.jsx:420 | `rel-${relationships.length + 1}`; RelationshipIdsCanRepeat shows it can repeat a surviving id |
| DiagramEditor.NewRelationship | src/components/DiagramEditor.jsx:419-424 | the relationship `completeConnection` adds: id `rel-{count + 1}`, one-to-many, from the start field to the clicked one; CompleteConnection's ensures and RelationshipIdsCanRepeat use it |
| DiagramEditor.RelationshipIdsCanRepeat | src/components/DiagramEditor.jsx:409-429 | after deleting a table, the next relationship can take the id of one that survived |
| DiagramEditor.NewColumnMayNotBeOnTop | src/components/DiagramEditor.jsx:53-64 | a table added after a promotion can tie with the promoted table's stacking order |
| DiagramEditor.MoveKeepsIds | src/components/DiagramEditor.jsx:176-180 | moving a table keeps every table's id |
| DiagramEditor.MoveAbsentColumn | src/components/DiagramEditor.jsx:176-180 | moving a table that is not there changes nothing |
| DiagramEditor.EditorSession.constructor | src/components/DiagramEditor.jsx:6-18 | no tables or relationships, counter 1, zoom 100, no pan, snapping on, idle |
| DiagramEditor.EditorSession.DragActive | src/components/DiagramEditor.jsx:145 | `isDragging && draggedColumn`: dragging with a non-empty dragged id, the case HandleMouseMove's ensures move a table in |
| DiagramEditor.EditorSession.AddColumn | src/components/DiagramEditor.jsx:40-68 | appends the counter's table at the placement point with zIndex the table count, with an id different from every existing one, and advances the counter |
| DiagramEditor.EditorSession.StartDragging | src/components/DiagramEditor.jsx:83-141 | with the table found: drag on, its id and pointer offset recorded, table brought to front; otherwise nothing changes |
| DiagramEditor.EditorSession.HandleMouseMove | src/components/DiagramEditor.jsx:144-204 | while dragging, the dragged table moves to the snapped or magnetically aligned pointer target; else while panning the pan shifts by the pointer movement; else nothing changes |
| DiagramEditor.EditorSession.StopDragging | src/components/DiagramEditor.jsx:335-345 | a drag in progress ends and forgets the dragged table |
| DiagramEditor.EditorSession.StartPanning | src/components/DiagramEditor.jsx:318-327 | the middle button, or the left button with Alt, starts a pan at the pointer; other buttons change nothing |
| DiagramEditor.EditorSession.StopPanning | src/components/DiagramEditor.jsx:330-332 | panning stops |
| DiagramEditor.EditorSession.ToggleSnapToGrid | src/components/DiagramEditor.jsx:348-355 | the flag flips and the new value is reported |
| DiagramEditor.EditorSession.HandleZoom | src/components/DiagramEditor.jsx:376-389 | zoom takes one step, 10 in or out clamped to 30..200, and the new level is reported |
| DiagramEditor.EditorSession.ResetView | src/components/DiagramEditor.jsx:392-400 | zoom 100 and no pan, 100 reported |
| DiagramEditor.EditorSession.StartConnection | src/components/DiagramEditor.jsx:403-406 | connecting, from that field |
| DiagramEditor.EditorSession.CompleteConnection | src/components/DiagramEditor.jsx:409-429 | no-op unless connecting; on the start field it only cancels; otherwise appends one one-to-many relationship `rel-{n+1}` from the start field and clears the pending connection |
| DiagramEditor.EditorSession.CancelConnection | src/components/DiagramEditor.jsx:432-435 | no pending connection |
| DiagramEditor.EditorSession.UpdateColumn | src/components/DiagramEditor.jsx:438-442 | tables become the patch-merged list, keeping ids distinct |
| DiagramEditor.EditorSession.DeleteColumn | src/components/DiagramEditor.jsx:445-453 | the table and every relationship with an end on it are gone; the rest is kept |
| DiagramRelationship.Locate | src/components/DiagramRelationship.jsx:9-24 | a found end is a table with the endpoint's id and a field of it with the endpoint's field id |
| DiagramRelationship.LocateIffPresent | src/components/DiagramRelationship.jsx:9-24 | with distinct table ids, an end is found exactly when such a table and field exist |
| DiagramRelationship.FieldAnchors | src/components/DiagramRelationship.jsx:36-63 | side anchors on the two edges at the row's middle, y = pos.y + 45 + 35i + 17.5; top and bottom at the centre line; bottom half a row below the side anchors; top at pos.y + 22.5 + 17.5i, above them |
| DiagramRelationship.AnchorsStack | src/components/DiagramRelationship.jsx:43-61 | rows are 35 apart, a row's bottom anchor is half a row above the next row's side anchors, and the top anchor moves half a row per row |
| DiagramRelationship.Facing | src/components/DiagramRelationship.jsx:69-109 | the two sides are opposite; side anchors when across is strictly larger than down, facing the other table; top and bottom anchors otherwise, ties included |
| DiagramRelationship.FacingReversed | src/components/DiagramRelationship.jsx:84-109 | viewed from the other table the sides swap, exactly when the centres differ |
| DiagramRelationship.SnapToGridPoint | src/components/DiagramRelationship.jsx:27-33 | identity when snapping is off; otherwise on the grid within half a cell |
| DiagramRelationship.ConnectionPoints | src/components/DiagramRelationship.jsx:69-119 | `getOptimalConnectionPoints`: the facing anchors of the two rows, snapped; Route's ensures, RouteReversed and ConnectionPointsSameGeometry state its properties |
| DiagramRelationship.Route | src/components/DiagramRelationship.jsx:9-119 | a line exists exactly when both ends are found, and with snapping on both its ends are on the grid |
| DiagramRelationship.RouteSoftFail | src/components/DiagramRelationship.jsx:9-24 | with distinct table ids, nothing is drawn exactly when a table or field of either end is missing |
| DiagramRelationship.RouteReversed | src/components/DiagramRelationship.jsx:69-119 | a relationship drawn the other way round gives the same line with swapped ends, when the centres differ |
| DiagramRelationship.TypeIndex | src/components/DiagramRelationship.jsx:190-191 | `indexOf`: the type's place in the cycle, or -1 exactly for a type outside it |
| DiagramRelationship.NextType | src/components/DiagramRelationship.jsx:186-197 | the next type is in the cycle, one place on; a type outside it goes to one-to-one |
| DiagramRelationship.NextTypeCycles | src/components/DiagramRelationship.jsx:190-194 | four clicks return to the start and no fewer do |
| DiagramRelationship.InitialType | src/components/DiagramRelationship.jsx:5 | the relationship's own type, or one-to-many when it has none |
| DiagramRelationship.MarkerShapes | src/components/DiagramRelationship.jsx:281-435 | the marker at each end per type: a bar for "one", a crow's foot for "many", with one-to-many for anything else (UnknownTypeDrawnAsOneToMany, LabelsDistinguishTypes) |
| DiagramRelationship.Label | src/components/DiagramRelationship.jsx:451-459 | `getRelationshipLabel`: `1:1`, `1:N`, `N:1` or `N:N`; LabelMatchesMarkers ties it to MarkerShapes |
| DiagramRelationship.LabelMatchesMarkers | src/components/DiagramRelationship.jsx:451-459 | the label spells the end markers, 1 for a bar and N for a crow's foot |
| DiagramRelationship.UnknownTypeDrawnAsOneToMany | src/components/DiagramRelationship.jsx:405-434 | a type outside the cycle is drawn and labelled as one-to-many |
| DiagramRelationship.LabelsDistinguishTypes | src/components/DiagramRelationship.jsx:451-459 | the four types get four different labels and marker pairs |
| DiagramRelationship.RelationshipView.constructor | src/components/DiagramRelationship.jsx:5 | the view starts with the relationship's type, or one-to-many |
| DiagramRelationship.RelationshipView.CycleRelationshipType | src/components/DiagramRelationship.jsx:186-197 | a click moves to the next type of the cycle |
| DiagramRelationship.RelationshipView.Render | src/components/DiagramRelationship.jsx:281-459 | draws exactly when the route exists, with that line, the end markers of the view's current type and that type's label, which spells those markers |
| DiagramColumn.RemoveField | src/components/DiagramColumn.jsx:83-87 | no field with the id survives and every other field does |
| DiagramColumn.RemoveFieldLeavesNoMatch | src/components/DiagramColumn.jsx:85 | after a delete the id cannot be found |
| DiagramColumn.RemoveAbsentField | src/components/DiagramColumn.jsx:85 | deleting an absent field changes nothing |
| DiagramColumn.RenameField | src/components/DiagramColumn.jsx:89-94 | ids and length kept; only the matching fields change, and only their name |
| DiagramColumn.RetypeField | src/components/DiagramColumn.jsx:96-101 | ids and length kept; only the matching fields change, and only their type |
| DiagramColumn.TogglePrimary | src/components/DiagramColumn.jsx:103-109 | ids and length kept; only the matching fields change, and only their key flag, which flips |
| DiagramColumn.TogglePrimaryTwice | src/components/DiagramColumn.jsx:103-109 | toggling twice is the identity |
| DiagramColumn.FindAfterFieldEdit | src/components/DiagramColumn.jsx:89-109 | after an edit the field is found with the new name, type or flag; other lookups unchanged |
| DiagramColumn.SameIdsSameFieldIndex | src/components/DiagramRelationship.jsx:37 | lookups by id agree on lists with the same ids |
| DiagramColumn.NewFieldId | src/components/DiagramColumn.jsx:67 | `field-{table}-{time}`; NewFieldIdsDiffer and NewFieldIdNotSeeded state that it is fresh |
| DiagramColumn.NewFieldIdsDiffer | src/components/DiagramColumn.jsx:67 | fields added at different clock readings get different ids |
| DiagramColumn.NewFieldIdNotSeeded | src/components/DiagramColumn.jsx:67 | an added field's id never equals a seeded `field-n-1` or `field-n-2` id |
| DiagramColumn.NewFieldUpdate | src/components/DiagramColumn.jsx:64-73 | no update exactly when the name is blank after trimming; otherwise the old fields and exactly one new field as typed, with id `field-{table}-{time}` |
| DiagramColumn.IsConnectionSource | src/components/DiagramColumn.jsx:123-128 | `isConnectionSource`: connecting, with the start on this table and field; IsConnectionSourceIff states it as an equation on endpoints |
| DiagramColumn.IsConnectionSourceIff | src/components/DiagramColumn.jsx:123-128 | a field is the source exactly when connecting from that table and field |
| DiagramColumn.ConnectButtonCall | src/components/DiagramColumn.jsx:112-120 | the connect button always calls: complete while connecting, start otherwise, with that field |
| DiagramColumn.FieldClickCall | src/components/DiagramColumn.jsx:131-136 | a row click completes exactly when connecting from a different field, and otherwise calls nothing |
| DiagramColumn.Dispatch | src/components/DiagramEditor.jsx:634-648 | no call, or a complete call with no connection in progress, changes nothing; a start call starts; a complete call on the start field cancels, on another field adds one relationship |
| DiagramColumn.ConnectButtonWalkthrough | src/components/DiagramColumn.jsx:112-136 | pressing connect twice, connecting again, clicking the source row and then another table's row adds exactly one relationship, from the first field to the other |
| DiagramColumn.SameLayoutSameColumnIndex | src/components/DiagramRelationship.jsx:9-10 | table lookups agree on lists with the same ids |
| DiagramColumn.LocateSameLayout | src/components/DiagramRelationship.jsx:9-24 | an end is found at the same place in two lists of the same geometry |
| DiagramColumn.ConnectionPointsSameGeometry | src/components/DiagramRelationship.jsx:36-119 | the line depends only on position, size and the row index |
| DiagramColumn.RouteDependsOnLayout | src/components/DiagramRelationship.jsx:9-119 | a relationship line depends only on table ids, geometry and field ids |
| DiagramColumn.UpdateOnlyTouchesFound | src/components/DiagramEditor.jsx:438-442 | with distinct ids, `updateColumn` reaches only the table the component was rendered with |
| DiagramColumn.FieldEditsKeepRoutes | src/components/DiagramColumn.jsx:54-109 | any patch that keeps the table's field ids, the name-only patch of a rename included, leaves every relationship line where it was |
| DiagramColumn.FieldEditsKeepIds | src/components/DiagramColumn.jsx:89-109 | the three field edits keep the field ids |
| DiagramColumn.DeleteFieldDropsRoute | src/components/DiagramColumn.jsx:83-87 | deleting a relationship's field makes its line disappear |
| DiagramColumn.ColumnEditor.constructor | src/components/DiagramColumn.jsx:18-21 | not editing, the box holding the table's name, the form closed and empty |
| DiagramColumn.ColumnEditor.StartEditing | src/components/DiagramColumn.jsx:49-52 | the rename box opens |
| DiagramColumn.ColumnEditor.SetEditingName | src/components/DiagramColumn.jsx:181 | typing replaces the box's text |
| DiagramColumn.ColumnEditor.SaveNameEdit | src/components/DiagramColumn.jsx:54-57 | patches the table's name with the box's text and closes the box |
| DiagramColumn.ColumnEditor.HandleAddField | src/components/DiagramColumn.jsx:60-62 | the form opens |
| DiagramColumn.ColumnEditor.SetDraftName | src/components/DiagramColumn.jsx:254 | typing replaces only the draft's name |
| DiagramColumn.ColumnEditor.SetDraftType | src/components/DiagramColumn.jsx:259 | choosing replaces only the draft's type |
| DiagramColumn.ColumnEditor.SetDraftPrimary | src/components/DiagramColumn.jsx:272 | ticking replaces only the draft's key flag |
| DiagramColumn.ColumnEditor.SaveNewField | src/components/DiagramColumn.jsx:64-76 | sends the add-field update; with a blank name nothing changes, otherwise the form closes and resets |
| DiagramColumn.ColumnEditor.CancelAddField | src/components/DiagramColumn.jsx:78-81 | the form closes and resets to no name, type string, not a key |

## Left out

- Inertia after a drag (src/components/DiagramEditor.jsx:274-315). It is timer-driven animation using `requestAnimationFrame` and a constant decay, so it is absent from `StopDragging`.
- Bezier control points, marker positions and the SVG path strings (src/components/DiagramRelationship.jsx:124-278). They are floating-point trigonometry (`atan2`, `sin`, `cos`, `sqrt`). Only the marker shape per end is modelled.
- The minimap viewport, which depends on DOM sizes.
- The drag ghost image and the drag timestamps kept for inertia.
- Hover state, ripple effects, styles and the SVG and DOM markup.
- Event listener registration, keyboard and wheel wiring, and bounding-rectangle lookups. The editor's page offset is a parameter instead.
- The parent callbacks. They are not called; their argument is returned instead.
- The side bar, the title bar and the application shell, which are interface chrome.
- Replaying undone or redone actions on the diagram. No code applies history actions to the editor store.
- React's asynchronous state batching. Each handler's setter calls are modelled as assignments in source order, reading the state as the handler saw it. That is what they do within one event.
- `RelationshipView.CycleRelationshipType`: the type changes only in the view's own state, as in the source. The stored relationship keeps its type.
- `EditorSession.HandleMouseMove`: the client and editor positions are given together. The model does not capture that a page scroll between events could move the editor.
- JavaScript numbers are IEEE doubles; the model uses exact reals and unbounded integers. Rounding error and overflow of coordinates, zoom and `Date.now()` are not modelled.
