/**
 * The editor's store and viewport: the tables and relationships of one
 * diagram, the zoom and pan of the view, grid and magnetic snapping, the
 * drag and pan controllers, and the state machine that draws a relationship
 * from one field to another.
 *
 * `EditorSession` carries the React state cells of the editor as fields;
 * each handler becomes a method that assigns the cells it sets, in the order
 * it sets them. The list rebuilds (`map`, `filter`) and the coordinate
 * arithmetic are functions beside it.
 *
 * Pointer positions are given as client coordinates together with the
 * editor's top-left corner on the page (what `getBoundingClientRect` reports).
 */
module DiagramEditor {
  import opened Common
  import opened DiagramModel

  // ---------------------------------------------------------------------------
  // Viewport transform
  // ---------------------------------------------------------------------------

  /** The zoom percentage as a factor. */
  function Scale(zoom: int): real {
    zoom as real / 100.0
  }

  /** Where a diagram point appears on screen: scaled, then shifted by the pan. */
  function ToScreen(p: Point, pan: Point, zoom: int): Point
    requires zoom > 0
  {
    Point(p.x * Scale(zoom) + pan.x, p.y * Scale(zoom) + pan.y)
  }

  /** The diagram point under a screen point: pan removed, then divided by the scale. */
  function ToDiagram(q: Point, pan: Point, zoom: int): Point
    requires zoom > 0
  {
    Point((q.x - pan.x) / Scale(zoom), (q.y - pan.y) / Scale(zoom))
  }

  lemma ToDiagramAfterToScreen(p: Point, pan: Point, zoom: int)
    requires zoom > 0
    ensures ToDiagram(ToScreen(p, pan, zoom), pan, zoom) == p
  {
  }

  lemma ToScreenAfterToDiagram(q: Point, pan: Point, zoom: int)
    requires zoom > 0
    ensures ToScreen(ToDiagram(q, pan, zoom), pan, zoom) == q
  {
  }

  // ---------------------------------------------------------------------------
  // Zoom stepping
  // ---------------------------------------------------------------------------

  const MinZoom: int := 30
  const MaxZoom: int := 200
  const ZoomIncrement: int := 10
  const DefaultZoom: int := 100

  /** The zoom levels the editor can reach: 30 to 200 percent in steps of 10. */
  predicate ValidZoom(zoom: int) {
    MinZoom <= zoom <= MaxZoom && zoom % ZoomIncrement == 0
  }

  /** `handleZoom`: ten percent in or out, clamped to the allowed range. */
  function ZoomStep(zoom: int, zoomIn: bool): (r: int)
    ensures ValidZoom(zoom) ==> ValidZoom(r)
    ensures zoomIn ==> (zoom <= r || r == MaxZoom)
    ensures !zoomIn ==> (r <= zoom || r == MinZoom)
    ensures ValidZoom(zoom) && zoomIn && zoom < MaxZoom ==> r == zoom + ZoomIncrement
    ensures ValidZoom(zoom) && !zoomIn && zoom > MinZoom ==> r == zoom - ZoomIncrement
  {
    if zoomIn then
      (if zoom + ZoomIncrement < MaxZoom then zoom + ZoomIncrement else MaxZoom)
    else
      (if zoom - ZoomIncrement > MinZoom then zoom - ZoomIncrement else MinZoom)
  }

  /** The zoom after a run of zoom-in (true) and zoom-out (false) steps. */
  function ZoomAfter(zoom: int, steps: seq<bool>): int
    decreases |steps|
  {
    if steps == [] then zoom else ZoomAfter(ZoomStep(zoom, steps[0]), steps[1..])
  }

  /** Whatever the keyboard, wheel and buttons do, the zoom stays on the allowed levels. */
  lemma {:induction false} ZoomAfterStaysValid(zoom: int, steps: seq<bool>)
    requires ValidZoom(zoom)
    ensures ValidZoom(ZoomAfter(zoom, steps))
    decreases |steps|
  {
    if steps != [] {
      ZoomAfterStaysValid(ZoomStep(zoom, steps[0]), steps[1..]);
    }
  }

  /** Below the ceiling, zooming in and back out returns to the same level. */
  lemma ZoomInThenOut(zoom: int)
    requires ValidZoom(zoom) && zoom < MaxZoom
    ensures ZoomStep(ZoomStep(zoom, true), false) == zoom
  {
  }

  /** Above the floor, zooming out and back in returns to the same level. */
  lemma ZoomOutThenIn(zoom: int)
    requires ValidZoom(zoom) && zoom > MinZoom
    ensures ZoomStep(ZoomStep(zoom, false), true) == zoom
  {
  }

  // ---------------------------------------------------------------------------
  // Grid snapping of a point
  // ---------------------------------------------------------------------------

  function SnapPoint(p: Point, g: real): (r: Point)
    requires g > 0.0
    ensures OnGrid(r.x, g) && OnGrid(r.y, g)
    ensures p.x - g / 2.0 < r.x <= p.x + g / 2.0 && p.y - g / 2.0 < r.y <= p.y + g / 2.0
  {
    Point(RoundToGrid(p.x, g), RoundToGrid(p.y, g))
  }

  // ---------------------------------------------------------------------------
  // Creating a table
  // ---------------------------------------------------------------------------

  const ColumnIdPrefix: string := "column-"

  /** `column-${n}`. */
  function ColumnId(n: nat): string {
    ColumnIdPrefix + NatToString(n)
  }

  /** The id has the form `column-k` for some k with 1 <= k < n. */
  predicate IssuedBefore(id: string, n: nat) {
    var p := |ColumnIdPrefix|;
    && |id| > p
    && id[..p] == ColumnIdPrefix
    && AllDigits(id[p..])
    && 1 <= ParseDecimal(id[p..]) < n
  }

  /** `column-k` counts as issued before n exactly when 1 <= k < n. */
  lemma ColumnIdIssuedBefore(k: nat, n: nat)
    ensures IssuedBefore(ColumnId(k), n) <==> 1 <= k < n
  {
    var id := ColumnId(k);
    assert id[..|ColumnIdPrefix|] == ColumnIdPrefix;
    assert id[|ColumnIdPrefix|..] == NatToString(k);
    ParseNatToString(k);
  }

  /** Distinct counters give distinct table ids. */
  lemma ColumnIdInjective(a: nat, b: nat)
    requires ColumnId(a) == ColumnId(b)
    ensures a == b
  {
    PrefixesOfEqualStrings(ColumnIdPrefix, NatToString(a), NatToString(b));
    NatToStringInjective(a, b);
  }

  /**
   * `addColumn`'s own arguments: a missing argument defaults to 50, and a
   * zero (falsy) one is replaced by 50 plus the pan offset.
   */
  function ScreenCoordinate(arg: Option<real>, pan: real): real {
    match arg
    case None => 50.0
    case Some(v) => if v == 0.0 then 50.0 + pan else v
  }

  /** Where `addColumn(x, y)` puts the new table, in diagram coordinates. */
  function PlacementPoint(x: Option<real>, y: Option<real>, pan: Point, zoom: int, snap: bool, g: real): (p: Point)
    requires zoom > 0 && g > 0.0
    ensures var d := ToDiagram(Point(ScreenCoordinate(x, pan.x), ScreenCoordinate(y, pan.y)), pan, zoom);
      && (snap ==> OnGrid(p.x, g) && OnGrid(p.y, g))
      && (snap ==> d.x - g / 2.0 < p.x <= d.x + g / 2.0 && d.y - g / 2.0 < p.y <= d.y + g / 2.0)
      && (!snap ==> p == d)
  {
    var d := ToDiagram(Point(ScreenCoordinate(x, pan.x), ScreenCoordinate(y, pan.y)), pan, zoom);
    if snap then SnapPoint(d, g) else d
  }

  /** `addColumn(103, 57)` at 100 percent, no pan, grid on: the table lands on (100, 60). */
  lemma PlacementExample()
    ensures PlacementPoint(Some(103.0), Some(57.0), Point(0.0, 0.0), 100, true, GridSize) == Point(100.0, 60.0)
  {
    JsRoundUnique(103.0 / 20.0, 5);
    JsRoundUnique(57.0 / 20.0, 3);
  }

  /** The table `addColumn` builds from the counter, seeded with an `id` key and a `name` field. */
  function NewColumn(n: nat, position: Point, zIndex: int): Column {
    Column(
      ColumnId(n),
      "Table " + NatToString(n),
      [ Field("field-" + NatToString(n) + "-1", "id", "int", true),
        Field("field-" + NatToString(n) + "-2", "name", "string", false) ],
      position,
      200.0,
      150.0,
      zIndex)
  }

  // ---------------------------------------------------------------------------
  // Dragging
  // ---------------------------------------------------------------------------

  /** `startDragging`: the pointer's offset from the table's top-left corner on screen. */
  function DragOffset(pointer: Point, position: Point, pan: Point, zoom: int): Point
    requires zoom > 0
  {
    var corner := ToScreen(position, pan, zoom);
    Point(pointer.x - corner.x, pointer.y - corner.y)
  }

  /** `handleMouseMove`: the diagram position that keeps the table under the pointer at that offset. */
  function DragTarget(pointer: Point, offset: Point, pan: Point, zoom: int): Point
    requires zoom > 0
  {
    ToDiagram(Point(pointer.x - offset.x, pointer.y - offset.y), pan, zoom)
  }

  /** A move at the pointer where the drag started gives back the table's own position. */
  lemma DragRoundTrip(pointer: Point, position: Point, pan: Point, zoom: int)
    requires zoom > 0
    ensures DragTarget(pointer, DragOffset(pointer, position, pan, zoom), pan, zoom) == position
  {
  }

  /** The table follows the pointer: a screen move by (dx, dy) moves it by (dx, dy) over the scale. */
  lemma DragFollowsPointer(pointer: Point, offset: Point, pan: Point, zoom: int, dx: real, dy: real)
    requires zoom > 0
    ensures var before, after := DragTarget(pointer, offset, pan, zoom),
                                  DragTarget(Point(pointer.x + dx, pointer.y + dy), offset, pan, zoom);
      after == Point(before.x + dx / Scale(zoom), before.y + dy / Scale(zoom))
  {
  }

  /** `Math.max(...columns.map(col => col.zIndex || 0))`; `|| 0` leaves an integer as it is. */
  function MaxZIndex(columns: seq<Column>): (m: int)
    requires |columns| > 0
    ensures forall i :: 0 <= i < |columns| ==> columns[i].zIndex <= m
    ensures exists i :: 0 <= i < |columns| && columns[i].zIndex == m
    decreases |columns|
  {
    if |columns| == 1 then columns[0].zIndex
    else
      var rest := MaxZIndex(columns[1..]);
      if columns[0].zIndex >= rest then columns[0].zIndex else rest
  }

  /** `startDragging`'s rebuild: the tables with that id move to the top of the stack. */
  function BringToFront(columns: seq<Column>, id: string): (r: seq<Column>)
    requires |columns| > 0
    ensures |r| == |columns|
    ensures forall i :: 0 <= i < |r| ==> r[i].id == columns[i].id
    ensures forall i :: 0 <= i < |r| && columns[i].id != id ==> r[i] == columns[i]
    ensures forall i :: 0 <= i < |r| && columns[i].id == id ==>
      r[i] == columns[i].(zIndex := MaxZIndex(columns) + 1)
  {
    var top := MaxZIndex(columns) + 1;
    seq(|columns|, i requires 0 <= i < |columns| =>
      if columns[i].id == id then columns[i].(zIndex := top) else columns[i])
  }

  /** The dragged table ends strictly above every other table. */
  lemma BringToFrontIsOnTop(columns: seq<Column>, id: string, i: nat, j: nat)
    requires i < |columns| && j < |columns|
    requires columns[i].id == id && columns[j].id != id
    ensures BringToFront(columns, id)[j].zIndex < BringToFront(columns, id)[i].zIndex
  {
  }

  /** The rebuild that writes a new position into the tables with that id. */
  function MoveColumn(columns: seq<Column>, id: string, position: Point): (r: seq<Column>)
    ensures |r| == |columns|
    ensures forall i :: 0 <= i < |r| && columns[i].id != id ==> r[i] == columns[i]
    ensures forall i :: 0 <= i < |r| && columns[i].id == id ==> r[i] == columns[i].(position := position)
  {
    seq(|columns|, i requires 0 <= i < |columns| =>
      if columns[i].id == id then columns[i].(position := position) else columns[i])
  }

  // ---------------------------------------------------------------------------
  // Magnetic snapping
  // ---------------------------------------------------------------------------

  /** The distance, in diagram units, below which a table is pulled into alignment. */
  const SnapThreshold: real := 10.0

  /** One alignment check: where the dragged table would go, and how far it is from aligning. */
  datatype Candidate = Candidate(target: real, delta: real)

  predicate Aligned(c: Candidate) {
    Abs(c.delta) < SnapThreshold
  }

  /** The horizontal checks against one other table, in the order they run: centre, left edge, right edge. */
  function XChecks(other: Column, width: real, newX: real): seq<Candidate> {
    var ox, ow := other.position.x, other.width;
    [ Candidate(ox + ow / 2.0 - width / 2.0, (ox + ow / 2.0) - (newX + width / 2.0)),
      Candidate(ox, ox - newX),
      Candidate(ox + ow - width, (ox + ow) - (newX + width)) ]
  }

  /** The vertical checks against one other table, in the order they run: centre, top edge, bottom edge. */
  function YChecks(other: Column, height: real, newY: real): seq<Candidate> {
    var oy, oh := other.position.y, other.height;
    [ Candidate(oy + oh / 2.0 - height / 2.0, (oy + oh / 2.0) - (newY + height / 2.0)),
      Candidate(oy, oy - newY),
      Candidate(oy + oh - height, (oy + oh) - (newY + height)) ]
  }

  /** Every horizontal check, table after table. */
  function XCandidates(others: seq<Column>, width: real, newX: real): seq<Candidate>
    decreases |others|
  {
    if others == [] then []
    else XCandidates(others[..|others| - 1], width, newX) + XChecks(others[|others| - 1], width, newX)
  }

  /** Every vertical check, table after table. */
  function YCandidates(others: seq<Column>, height: real, newY: real): seq<Candidate>
    decreases |others|
  {
    if others == [] then []
    else YCandidates(others[..|others| - 1], height, newY) + YChecks(others[|others| - 1], height, newY)
  }

  /** The last check that aligns, or -1 when none does. */
  function LastAlignedIndex(cs: seq<Candidate>): (k: int)
    ensures -1 <= k < |cs|
    ensures k >= 0 ==> Aligned(cs[k])
    ensures forall j :: k < j < |cs| ==> !Aligned(cs[j])
    decreases |cs|
  {
    if cs == [] then -1
    else if Aligned(cs[|cs| - 1]) then |cs| - 1
    else LastAlignedIndex(cs[..|cs| - 1])
  }

  /** The snap on one axis: whether any check aligned, and the target of the last one that did. */
  function AxisSnap(cs: seq<Candidate>, fallback: real): (bool, real) {
    var k := LastAlignedIndex(cs);
    if k >= 0 then (true, cs[k].target) else (false, fallback)
  }

  /** One more check either overrides the axis (when it aligns) or leaves it as it was. */
  lemma AxisSnapAppend(cs: seq<Candidate>, c: Candidate, fallback: real)
    ensures AxisSnap(cs + [c], fallback) == if Aligned(c) then (true, c.target) else AxisSnap(cs, fallback)
  {
    assert (cs + [c])[..|cs|] == cs;
  }

  /** Later checks win: the checks of later tables override those of earlier ones. */
  lemma {:induction false} AxisSnapConcat(cs: seq<Candidate>, ds: seq<Candidate>, fallback: real)
    ensures AxisSnap(cs + ds, fallback)
         == if LastAlignedIndex(ds) >= 0 then (true, ds[LastAlignedIndex(ds)].target) else AxisSnap(cs, fallback)
    decreases |ds|
  {
    if ds == [] {
      assert cs + ds == cs;
    } else {
      var init, last := ds[..|ds| - 1], ds[|ds| - 1];
      assert cs + ds == (cs + init) + [last];
      AxisSnapAppend(cs + init, last, fallback);
      AxisSnapConcat(cs, init, fallback);
    }
  }

  /** Each check's target lies exactly `delta` away from the proposed coordinate. */
  predicate OffsetsExact(cs: seq<Candidate>, origin: real) {
    forall j :: 0 <= j < |cs| ==> cs[j].target - origin == cs[j].delta
  }

  lemma {:induction false} CandidateOffsets(others: seq<Column>, width: real, height: real, newX: real, newY: real)
    ensures OffsetsExact(XCandidates(others, width, newX), newX)
    ensures OffsetsExact(YCandidates(others, height, newY), newY)
    decreases |others|
  {
    if others != [] {
      var init, last := others[..|others| - 1], others[|others| - 1];
      CandidateOffsets(init, width, height, newX, newY);
      ConcatOffsets(XCandidates(init, width, newX), XChecks(last, width, newX), newX);
      ConcatOffsets(YCandidates(init, height, newY), YChecks(last, height, newY), newY);
    }
  }

  lemma ConcatOffsets(cs: seq<Candidate>, ds: seq<Candidate>, origin: real)
    requires OffsetsExact(cs, origin) && OffsetsExact(ds, origin)
    ensures OffsetsExact(cs + ds, origin)
  {
    forall j | 0 <= j < |cs + ds| ensures (cs + ds)[j].target - origin == (cs + ds)[j].delta {
      if j >= |cs| {
        assert (cs + ds)[j] == ds[j - |cs|];
      }
    }
  }

  /** An axis snaps exactly when some check on it aligns, and then it moves by less than the threshold. */
  lemma MagneticSnapIsLocal(others: seq<Column>, width: real, height: real, newX: real, newY: real)
    ensures var (snapsX, x) := AxisSnap(XCandidates(others, width, newX), newX);
      && (snapsX <==> exists j :: 0 <= j < |XCandidates(others, width, newX)| && Aligned(XCandidates(others, width, newX)[j]))
      && Abs(x - newX) < SnapThreshold
    ensures var (snapsY, y) := AxisSnap(YCandidates(others, height, newY), newY);
      && (snapsY <==> exists j :: 0 <= j < |YCandidates(others, height, newY)| && Aligned(YCandidates(others, height, newY)[j]))
      && Abs(y - newY) < SnapThreshold
  {
    CandidateOffsets(others, width, height, newX, newY);
  }

  /** Dragging a table to within the threshold of the left edge of a single other table of the same width lines both edges up. */
  lemma LeftEdgeSnapExample(other: Column, width: real, newX: real)
    requires other.width == width && Abs(other.position.x - newX) < SnapThreshold
    ensures AxisSnap(XCandidates([other], width, newX), newX) == (true, other.position.x)
  {
    assert [other][..0] == [];
    var cs := XChecks(other, width, newX);
    assert XCandidates([other], width, newX) == [] + cs;
    assert Aligned(cs[2]);
  }

  /** The position magnetic snapping settles on, from the proposed one. */
  function MagneticPosition(others: seq<Column>, width: real, height: real, proposed: Point): (p: Point)
    ensures Abs(p.x - proposed.x) < SnapThreshold && Abs(p.y - proposed.y) < SnapThreshold
  {
    MagneticSnapIsLocal(others, width, height, proposed.x, proposed.y);
    var (_, x) := AxisSnap(XCandidates(others, width, proposed.x), proposed.x);
    var (_, y) := AxisSnap(YCandidates(others, height, proposed.y), proposed.y);
    Point(x, y)
  }

  /** The axis after one more check: overridden when the check aligns, unchanged otherwise. */
  function Override(state: (bool, real), c: Candidate): (bool, real) {
    if Aligned(c) then (true, c.target) else state
  }

  /** The axis after the three checks against one table, in their order. */
  function OverrideAll(state: (bool, real), cs: seq<Candidate>): (r: (bool, real))
    requires |cs| == 3
  {
    Override(Override(Override(state, cs[0]), cs[1]), cs[2])
  }

  /**
   * The body of `applyMagneticSnap`'s loop for one other table: six
   * alignment checks, centre first, each aligned one overriding its axis.
   */
  method AlignWith(other: Column, width: real, height: real, newX: real, newY: real,
                   shouldSnapX0: bool, snapX0: real, shouldSnapY0: bool, snapY0: real)
    returns (shouldSnapX: bool, snapX: real, shouldSnapY: bool, snapY: real)
    ensures (shouldSnapX, snapX) == OverrideAll((shouldSnapX0, snapX0), XChecks(other, width, newX))
    ensures (shouldSnapY, snapY) == OverrideAll((shouldSnapY0, snapY0), YChecks(other, height, newY))
  {
    shouldSnapX, snapX, shouldSnapY, snapY := shouldSnapX0, snapX0, shouldSnapY0, snapY0;

    // Horizontal centre alignment
    var otherCenterX := other.position.x + other.width / 2.0;
    var currentCenterX := newX + width / 2.0;
    if Abs(otherCenterX - currentCenterX) < SnapThreshold {
      snapX := other.position.x + other.width / 2.0 - width / 2.0;
      shouldSnapX := true;
    }

    // Vertical centre alignment
    var otherCenterY := other.position.y + other.height / 2.0;
    var currentCenterY := newY + height / 2.0;
    if Abs(otherCenterY - currentCenterY) < SnapThreshold {
      snapY := other.position.y + other.height / 2.0 - height / 2.0;
      shouldSnapY := true;
    }

    // Left edge alignment
    if Abs(other.position.x - newX) < SnapThreshold {
      snapX := other.position.x;
      shouldSnapX := true;
    }

    // Right edge alignment
    if Abs(other.position.x + other.width - (newX + width)) < SnapThreshold {
      snapX := other.position.x + other.width - width;
      shouldSnapX := true;
    }

    // Top edge alignment
    if Abs(other.position.y - newY) < SnapThreshold {
      snapY := other.position.y;
      shouldSnapY := true;
    }

    // Bottom edge alignment
    if Abs(other.position.y + other.height - (newY + height)) < SnapThreshold {
      snapY := other.position.y + other.height - height;
      shouldSnapY := true;
    }
  }

  /** Running the three checks of one more table continues the snap of the tables before it. */
  lemma AxisSnapStep(cs: seq<Candidate>, checks: seq<Candidate>, fallback: real)
    requires |checks| == 3
    ensures AxisSnap(cs + checks, fallback) == OverrideAll(AxisSnap(cs, fallback), checks)
  {
    AxisSnapAppend(cs, checks[0], fallback);
    AxisSnapAppend(cs + [checks[0]], checks[1], fallback);
    AxisSnapAppend(cs + [checks[0]] + [checks[1]], checks[2], fallback);
    assert cs + checks == cs + [checks[0]] + [checks[1]] + [checks[2]];
  }

  /**
   * `applyMagneticSnap`'s loop: every other table is checked in order, each
   * aligned check overriding the axis it belongs to.
   */
  method MagneticSnap(others: seq<Column>, width: real, height: real, newX: real, newY: real)
    returns (shouldSnapX: bool, snapX: real, shouldSnapY: bool, snapY: real)
    ensures (shouldSnapX, snapX) == AxisSnap(XCandidates(others, width, newX), newX)
    ensures (shouldSnapY, snapY) == AxisSnap(YCandidates(others, height, newY), newY)
  {
    shouldSnapX, shouldSnapY := false, false;
    snapX, snapY := newX, newY;
    var i := 0;
    while i < |others|
      invariant 0 <= i <= |others|
      invariant (shouldSnapX, snapX) == AxisSnap(XCandidates(others[..i], width, newX), newX)
      invariant (shouldSnapY, snapY) == AxisSnap(YCandidates(others[..i], height, newY), newY)
    {
      AxisSnapStep(XCandidates(others[..i], width, newX), XChecks(others[i], width, newX), newX);
      AxisSnapStep(YCandidates(others[..i], height, newY), YChecks(others[i], height, newY), newY);
      assert others[..i + 1][..i] == others[..i];
      shouldSnapX, snapX, shouldSnapY, snapY :=
        AlignWith(others[i], width, height, newX, newY, shouldSnapX, snapX, shouldSnapY, snapY);
      i := i + 1;
    }
    assert others[..|others|] == others;
  }

  // ---------------------------------------------------------------------------
  // List rebuilds of the store
  // ---------------------------------------------------------------------------

  /** `columns.filter(col => col.id !== id)`. */
  function OtherColumns(columns: seq<Column>, id: string): (r: seq<Column>)
    ensures forall i :: 0 <= i < |r| ==> r[i].id != id && r[i] in columns
    ensures forall i :: 0 <= i < |columns| && columns[i].id != id ==> columns[i] in r
  {
    Filter(columns, (c: Column) => c.id != id)
  }

  /** The relationship has an end on the table. */
  predicate Touches(r: Relationship, columnId: string) {
    r.from.columnId == columnId || r.to.columnId == columnId
  }

  /** `deleteColumn`'s relationship filter: drop every relationship with an end on the table. */
  function DetachColumn(relationships: seq<Relationship>, columnId: string): (r: seq<Relationship>)
    ensures forall i :: 0 <= i < |r| ==> !Touches(r[i], columnId) && r[i] in relationships
    ensures forall i :: 0 <= i < |relationships| && !Touches(relationships[i], columnId) ==> relationships[i] in r
  {
    Filter(relationships, (rel: Relationship) => !Touches(rel, columnId))
  }

  /** The relationships that survive keep their relative order. */
  lemma DetachColumnKeepsOrder(a: seq<Relationship>, b: seq<Relationship>, columnId: string)
    ensures DetachColumn(a + b, columnId) == DetachColumn(a, columnId) + DetachColumn(b, columnId)
  {
    FilterConcat(a, b, (rel: Relationship) => !Touches(rel, columnId));
  }

  /** Deleting a table no relationship touches leaves the relationships as they are. */
  lemma DetachUntouchedColumn(relationships: seq<Relationship>, columnId: string)
    requires forall i :: 0 <= i < |relationships| ==> !Touches(relationships[i], columnId)
    ensures DetachColumn(relationships, columnId) == relationships
  {
    FilterAllPass(relationships, (rel: Relationship) => !Touches(rel, columnId));
  }

  /** `updateColumn`'s rebuild: the patch is merged into the tables with that id. */
  function UpdateColumns(columns: seq<Column>, id: string, patch: ColumnPatch): (r: seq<Column>)
    ensures |r| == |columns|
    ensures forall i :: 0 <= i < |r| ==> r[i].id == columns[i].id
    ensures forall i :: 0 <= i < |r| && columns[i].id != id ==> r[i] == columns[i]
    ensures forall i :: 0 <= i < |r| && columns[i].id == id ==> r[i] == Merge(columns[i], patch)
  {
    seq(|columns|, i requires 0 <= i < |columns| =>
      if columns[i].id == id then Merge(columns[i], patch) else columns[i])
  }

  /** After an update, looking the table up finds the merged table; other lookups are unaffected. */
  lemma FindAfterUpdate(columns: seq<Column>, id: string, patch: ColumnPatch, other: string)
    ensures var after := FindColumn(UpdateColumns(columns, id, patch), other);
      after == match FindColumn(columns, other)
               case None => None
               case Some(c) => Some(if other == id then Merge(c, patch) else c)
  {
    var r := UpdateColumns(columns, id, patch);
    var i, j := FindColumnIndex(columns, other), FindColumnIndex(r, other);
    assert forall k :: 0 <= k < |r| ==> r[k].id == columns[k].id;
  }

  /** `rel-${count + 1}`: relationship ids come from the current number of relationships. */
  function RelationshipId(count: nat): string {
    "rel-" + NatToString(count + 1)
  }

  /** The relationship `completeConnection` adds: from the start endpoint to the clicked field, one-to-many. */
  function NewRelationship(count: nat, from: Endpoint, to: Endpoint): Relationship {
    Relationship(RelationshipId(count), from, to, "one-to-many")
  }

  /**
   * Relationship ids can repeat: with "rel-1" on a deleted table and "rel-2"
   * kept, the next connection is numbered from the one survivor and is
   * "rel-2" again.
   */
  lemma RelationshipIdsCanRepeat(gone: Endpoint, kept1: Endpoint, kept2: Endpoint, a: Endpoint, b: Endpoint)
    requires gone.columnId == "column-1" && kept1.columnId != "column-1" && kept2.columnId != "column-1"
    ensures var rels := [Relationship(RelationshipId(0), gone, kept1, "one-to-many"),
                         Relationship(RelationshipId(1), kept1, kept2, "one-to-many")];
      var left := DetachColumn(rels, "column-1");
      left == [rels[1]] && NewRelationship(|left|, a, b).id == rels[1].id
  {
    var rels := [Relationship(RelationshipId(0), gone, kept1, "one-to-many"),
                 Relationship(RelationshipId(1), kept1, kept2, "one-to-many")];
    DetachColumnKeepsOrder([rels[0]], [rels[1]], "column-1");
    assert rels == [rels[0]] + [rels[1]];
  }

  /**
   * A new table's stacking order is the table count, so after a drag has
   * promoted another table it can come out level with it instead of on top.
   */
  lemma NewColumnMayNotBeOnTop(a: Column, b: Column)
    requires a.id != b.id && a.zIndex == 0 && b.zIndex == 1
    ensures var lifted := BringToFront([a, b], a.id);
      var added := NewColumn(3, Point(0.0, 0.0), |lifted|);
      lifted[0].zIndex == 2 && added.zIndex == lifted[0].zIndex
  {
    assert MaxZIndex([a, b]) == 1 by {
      assert [a, b][1..] == [b];
    }
  }

  // ---------------------------------------------------------------------------
  // The session
  // ---------------------------------------------------------------------------

  class EditorSession {
    var columns: seq<Column>
    var relationships: seq<Relationship>
    var isDragging: bool
    var draggedColumn: Option<string>
    var dragOffset: Point
    var isConnecting: bool
    var connectionStart: Option<Endpoint>
    var nextId: nat
    var zoomLevel: int
    var panOffset: Point
    var isPanning: bool
    var startPanPos: Point
    var snapToGrid: bool

    /** The zoom is on an allowed level and every table has its own id, issued from the counter. */
    ghost predicate Valid()
      reads this
    {
      && ValidZoom(zoomLevel)
      && nextId >= 1
      && (forall i :: 0 <= i < |columns| ==> IssuedBefore(columns[i].id, nextId))
      && DistinctKeys(columns, ColumnKey)
    }

    constructor ()
      ensures Valid()
      ensures columns == [] && relationships == [] && nextId == 1
      ensures zoomLevel == DefaultZoom && panOffset == Point(0.0, 0.0) && snapToGrid
      ensures !isDragging && draggedColumn.None? && !isPanning
      ensures !isConnecting && connectionStart.None?
    {
      columns, relationships := [], [];
      isDragging, draggedColumn, dragOffset := false, None, Point(0.0, 0.0);
      isConnecting, connectionStart := false, None;
      nextId := 1;
      zoomLevel := DefaultZoom;
      panOffset := Point(0.0, 0.0);
      isPanning, startPanPos := false, Point(0.0, 0.0);
      snapToGrid := true;
    }

    /** The dragged table's id as the source tests it (`isDragging && draggedColumn`: set and non-empty). */
    predicate DragActive()
      reads this
    {
      isDragging && draggedColumn.Some? && draggedColumn.value != ""
    }

    /**
     * `addColumn(x, y)`: appends a table numbered from the counter at the
     * placement point, stacked at the current table count, and advances the
     * counter. Its id differs from every existing table's.
     */
    method AddColumn(x: Option<real>, y: Option<real>)
      requires Valid()
      modifies this`columns, this`nextId
      ensures Valid()
      ensures nextId == old(nextId) + 1
      ensures columns == old(columns)
        + [NewColumn(old(nextId), PlacementPoint(x, y, panOffset, zoomLevel, snapToGrid, GridSize), |old(columns)|)]
      ensures forall i :: 0 <= i < |old(columns)| ==> old(columns)[i].id != columns[|columns| - 1].id
    {
      var position := PlacementPoint(x, y, panOffset, zoomLevel, snapToGrid, GridSize);
      var column := NewColumn(nextId, position, |columns|);
      ColumnIdIssuedBefore(nextId, nextId);
      ColumnIdIssuedBefore(nextId, nextId + 1);
      ghost var before := columns;
      columns := columns + [column];
      nextId := nextId + 1;
      assert forall i :: 0 <= i < |before| ==> before[i].id != column.id;
      assert forall i :: 0 <= i < |columns| - 1 ==> columns[i] == before[i];
    }

    /**
     * `startDragging`: with the table found, records the pointer's offset
     * from its top-left corner on screen and brings it to the front; with
     * no such table, nothing happens.
     */
    method StartDragging(columnId: string, client: Point, editorOrigin: Point)
      requires Valid()
      modifies this`isDragging, this`draggedColumn, this`dragOffset, this`columns
      ensures Valid()
      ensures FindColumn(old(columns), columnId).None? ==>
        && columns == old(columns) && isDragging == old(isDragging)
        && draggedColumn == old(draggedColumn) && dragOffset == old(dragOffset)
      ensures FindColumn(old(columns), columnId).Some? ==>
        var pointer := Point(client.x - editorOrigin.x, client.y - editorOrigin.y);
        && isDragging && draggedColumn == Some(columnId)
        && dragOffset == DragOffset(pointer, FindColumn(old(columns), columnId).value.position, panOffset, zoomLevel)
        && columns == BringToFront(old(columns), columnId)
    {
      var column := FindColumn(columns, columnId);
      if column.None? {
        return;
      }
      var pointer := Point(client.x - editorOrigin.x, client.y - editorOrigin.y);
      isDragging := true;
      draggedColumn := Some(columnId);
      dragOffset := DragOffset(pointer, column.value.position, panOffset, zoomLevel);
      columns := BringToFront(columns, columnId);
    }

    /**
     * `handleMouseMove`: while dragging, moves the dragged table to the
     * pointer (grid-snapped, or magnetically snapped to the other tables when
     * the grid is off); else, while panning, shifts the pan by the pointer's
     * movement since the last event.
     */
    method HandleMouseMove(client: Point, editorOrigin: Point)
      requires Valid()
      modifies this`columns, this`panOffset, this`startPanPos
      ensures Valid()
      ensures DragActive() ==>
        var id := draggedColumn.value;
        var pointer := Point(client.x - editorOrigin.x, client.y - editorOrigin.y);
        var target := DragTarget(pointer, dragOffset, old(panOffset), zoomLevel);
        && panOffset == old(panOffset) && startPanPos == old(startPanPos)
        && columns == MoveColumn(old(columns), id, DragPosition(old(columns), id, target, snapToGrid))
      ensures !DragActive() && isPanning ==>
        && columns == old(columns)
        && panOffset == Point(old(panOffset).x + (client.x - old(startPanPos).x),
                              old(panOffset).y + (client.y - old(startPanPos).y))
        && startPanPos == client
      ensures !DragActive() && !isPanning ==>
        columns == old(columns) && panOffset == old(panOffset) && startPanPos == old(startPanPos)
    {
      if DragActive() {
        var id := draggedColumn.value;
        var pointer := Point(client.x - editorOrigin.x, client.y - editorOrigin.y);
        var target := DragTarget(pointer, dragOffset, panOffset, zoomLevel);
        var final := if snapToGrid then SnapPoint(target, GridSize) else target;
        // The source's closure still holds the columns from before this move.
        var before := columns;
        columns := MoveColumn(before, id, final);
        MoveKeepsIds(before, id, final);
        if !snapToGrid {
          var column := FindColumn(before, id);
          if column.Some? {
            var others := OtherColumns(before, id);
            var shouldSnapX, snapX, shouldSnapY, snapY :=
              MagneticSnap(others, column.value.width, column.value.height, final.x, final.y);
            if shouldSnapX || shouldSnapY {
              var snapped := Point(if shouldSnapX then snapX else final.x, if shouldSnapY then snapY else final.y);
              columns := MoveColumn(before, id, snapped);
              MoveKeepsIds(before, id, snapped);
            }
          } else {
            MoveAbsentColumn(before, id, final);
          }
        }
      } else if isPanning {
        var dx := client.x - startPanPos.x;
        var dy := client.y - startPanPos.y;
        panOffset := Point(panOffset.x + dx, panOffset.y + dy);
        startPanPos := client;
      }
    }

    /** `stopDragging`: ends the drag. The inertial glide that follows it is not modelled. */
    method StopDragging()
      modifies this`isDragging, this`draggedColumn
      ensures old(isDragging) ==> !isDragging && draggedColumn.None?
      ensures !old(isDragging) ==> !isDragging && draggedColumn == old(draggedColumn)
    {
      if isDragging {
        isDragging := false;
        draggedColumn := None;
      }
    }

    /** `startPanning`: the middle button, or the left button with Alt held, starts a pan at the pointer. */
    method StartPanning(button: int, altKey: bool, client: Point)
      modifies this`isPanning, this`startPanPos
      ensures (button == 1 || (button == 0 && altKey)) ==> isPanning && startPanPos == client
      ensures !(button == 1 || (button == 0 && altKey)) ==>
        isPanning == old(isPanning) && startPanPos == old(startPanPos)
    {
      if button == 1 || (button == 0 && altKey) {
        isPanning := true;
        startPanPos := client;
      }
    }

    method StopPanning()
      modifies this`isPanning
      ensures !isPanning
    {
      isPanning := false;
    }

    /** `toggleSnapToGrid`: flips the flag and reports the new value to the embedding shell. */
    method ToggleSnapToGrid() returns (notified: bool)
      modifies this`snapToGrid
      ensures snapToGrid == !old(snapToGrid) && notified == snapToGrid
    {
      snapToGrid := !snapToGrid;
      notified := snapToGrid;
    }

    /** `handleZoom`: one step in or out, reported to the embedding shell. */
    method HandleZoom(zoomIn: bool) returns (notified: int)
      requires Valid()
      modifies this`zoomLevel
      ensures Valid()
      ensures zoomLevel == ZoomStep(old(zoomLevel), zoomIn) && notified == zoomLevel
    {
      zoomLevel := ZoomStep(zoomLevel, zoomIn);
      notified := zoomLevel;
    }

    /** `resetView`: back to 100 percent and no pan. */
    method ResetView() returns (notified: int)
      requires Valid()
      modifies this`zoomLevel, this`panOffset
      ensures Valid()
      ensures zoomLevel == DefaultZoom && panOffset == Point(0.0, 0.0) && notified == DefaultZoom
    {
      zoomLevel := DefaultZoom;
      panOffset := Point(0.0, 0.0);
      notified := DefaultZoom;
    }

    /** `startConnection`: remembers the field a new relationship starts from. */
    method StartConnection(columnId: string, fieldId: string)
      modifies this`isConnecting, this`connectionStart
      ensures isConnecting && connectionStart == Some(Endpoint(columnId, fieldId))
    {
      isConnecting := true;
      connectionStart := Some(Endpoint(columnId, fieldId));
    }

    /**
     * `completeConnection`: does nothing unless a connection is being drawn;
     * clicking the start field again cancels it; any other field gets one new
     * one-to-many relationship from the start field. Either way the pending
     * connection is then cleared.
     */
    method CompleteConnection(columnId: string, fieldId: string)
      modifies this`relationships, this`isConnecting, this`connectionStart
      ensures !old(isConnecting) || old(connectionStart).None? ==>
        && relationships == old(relationships)
        && isConnecting == old(isConnecting) && connectionStart == old(connectionStart)
      ensures old(isConnecting) && old(connectionStart) == Some(Endpoint(columnId, fieldId)) ==>
        && relationships == old(relationships)
        && !isConnecting && connectionStart.None?
      ensures old(isConnecting) && old(connectionStart).Some? && old(connectionStart) != Some(Endpoint(columnId, fieldId)) ==>
        && relationships == old(relationships)
             + [NewRelationship(|old(relationships)|, old(connectionStart).value, Endpoint(columnId, fieldId))]
        && !isConnecting && connectionStart.None?
    {
      if !isConnecting || connectionStart.None? {
        return;
      }
      var start := connectionStart.value;
      if start.columnId == columnId && start.fieldId == fieldId {
        isConnecting := false;
        connectionStart := None;
        return;
      }
      var relationship := NewRelationship(|relationships|, start, Endpoint(columnId, fieldId));
      relationships := relationships + [relationship];
      isConnecting := false;
      connectionStart := None;
    }

    /** `cancelConnection` (also what Escape does): drops the pending connection. */
    method CancelConnection()
      modifies this`isConnecting, this`connectionStart
      ensures !isConnecting && connectionStart.None?
    {
      isConnecting := false;
      connectionStart := None;
    }

    /** `updateColumn`: merges the patch into the table with that id; nothing else changes. */
    method UpdateColumn(columnId: string, patch: ColumnPatch)
      requires Valid()
      modifies this`columns
      ensures Valid()
      ensures columns == UpdateColumns(old(columns), columnId, patch)
    {
      columns := UpdateColumns(columns, columnId, patch);
      assert forall i :: 0 <= i < |columns| ==> ColumnKey(columns[i]) == ColumnKey(old(columns)[i]);
    }

    /** `deleteColumn`: removes the table and every relationship with an end on it. */
    method DeleteColumn(columnId: string)
      requires Valid()
      modifies this`columns, this`relationships
      ensures Valid()
      ensures columns == OtherColumns(old(columns), columnId)
      ensures relationships == DetachColumn(old(relationships), columnId)
      ensures forall i :: 0 <= i < |columns| ==> columns[i].id != columnId
      ensures forall i :: 0 <= i < |relationships| ==> !Touches(relationships[i], columnId)
    {
      FilterKeepsDistinctKeys(columns, (c: Column) => c.id != columnId, ColumnKey);
      columns := OtherColumns(columns, columnId);
      relationships := DetachColumn(relationships, columnId);
    }
  }

  /** Where a drag move puts the dragged table: on the grid, or magnetically aligned when the grid is off. */
  function DragPosition(columns: seq<Column>, id: string, target: Point, snap: bool): (p: Point)
    ensures snap ==> OnGrid(p.x, GridSize) && OnGrid(p.y, GridSize)
    ensures snap ==> Abs(p.x - target.x) <= GridSize / 2.0 && Abs(p.y - target.y) <= GridSize / 2.0
    ensures !snap ==> Abs(p.x - target.x) < SnapThreshold && Abs(p.y - target.y) < SnapThreshold
  {
    if snap then SnapPoint(target, GridSize)
    else match FindColumn(columns, id)
      case None => target
      case Some(c) => MagneticPosition(OtherColumns(columns, id), c.width, c.height, target)
  }

  lemma MoveKeepsIds(columns: seq<Column>, id: string, position: Point)
    ensures forall i :: 0 <= i < |columns| ==> ColumnKey(MoveColumn(columns, id, position)[i]) == ColumnKey(columns[i])
  {
  }

  /** Moving a table that is not there changes nothing, whatever the position. */
  lemma MoveAbsentColumn(columns: seq<Column>, id: string, position: Point)
    requires FindColumn(columns, id).None?
    ensures MoveColumn(columns, id, position) == columns
  {
  }

  /**
   * Creating two tables, connecting a field of the first to a field of the
   * second, and deleting the first leaves no relationship behind.
   */
  method DeleteCascadeWalkthrough() {
    var session := new EditorSession();
    session.AddColumn(None, None);
    session.AddColumn(Some(300.0), Some(80.0));
    var first, second := session.columns[0], session.columns[1];
    assert first.id == ColumnId(1) && second.id == ColumnId(2);
    session.StartConnection(first.id, first.fields[0].id);
    session.CompleteConnection(second.id, second.fields[0].id);
    assert |session.relationships| == 1;
    session.DeleteColumn(first.id);
    assert session.relationships == [];
    assert |session.columns| == 1;
  }
}
