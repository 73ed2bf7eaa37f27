/**
 * The discrete part of drawing one relationship: finding its two ends,
 * the four anchor points of a field row, the choice of the facing pair of
 * anchors from the two tables' centres, grid snapping of the end points,
 * and the cardinality types with their label and end markers.
 *
 * `RelationshipView` carries the component's one piece of local state, the
 * relationship type, which a click cycles through the four types.
 */
module DiagramRelationship {
  import opened Common
  import opened DiagramModel

  /** The drawn height of one field row, and of the table header above the rows. */
  const FieldHeight: real := 35.0
  const HeaderHeight: real := 45.0

  // ---------------------------------------------------------------------------
  // Endpoint lookup
  // ---------------------------------------------------------------------------

  /**
   * The table an endpoint names and the index of its field there: the first
   * table with that id, and the first field of it with that id.
   */
  function Locate(e: Endpoint, columns: seq<Column>): (r: Option<(Column, nat)>)
    ensures r.Some? ==> var (c, k) := r.value;
      && c in columns && c.id == e.columnId
      && k < |c.fields| && c.fields[k].id == e.fieldId
  {
    var ci := FindColumnIndex(columns, e.columnId);
    if ci < 0 then None
    else
      var fi := FindFieldIndex(columns[ci].fields, e.fieldId);
      if fi < 0 then None else Some((columns[ci], fi))
  }

  /** Some table with the endpoint's id has a field with the endpoint's field id. */
  predicate EndpointPresent(e: Endpoint, columns: seq<Column>) {
    exists i, k :: 0 <= i < |columns| && 0 <= k < |columns[i].fields| &&
      columns[i].id == e.columnId && columns[i].fields[k].id == e.fieldId
  }

  /** When table ids are distinct, an endpoint is found exactly when it is present. */
  lemma LocateIffPresent(e: Endpoint, columns: seq<Column>)
    requires DistinctKeys(columns, ColumnKey)
    ensures Locate(e, columns).Some? <==> EndpointPresent(e, columns)
  {
    if EndpointPresent(e, columns) {
      var i, k :| 0 <= i < |columns| && 0 <= k < |columns[i].fields| &&
        columns[i].id == e.columnId && columns[i].fields[k].id == e.fieldId;
      assert FindColumnIndex(columns, e.columnId) == i;
    }
  }

  // ---------------------------------------------------------------------------
  // Anchor points
  // ---------------------------------------------------------------------------

  datatype Side = Left | Right | Top | Bottom

  function Opposite(s: Side): Side {
    match s
    case Left => Right
    case Right => Left
    case Top => Bottom
    case Bottom => Top
  }

  datatype Anchors = Anchors(left: Point, right: Point, top: Point, bottom: Point)

  function AnchorAt(a: Anchors, s: Side): Point {
    match s
    case Left => a.left
    case Right => a.right
    case Top => a.top
    case Bottom => a.bottom
  }

  /**
   * `getFieldPosition`: the side anchors sit on the table's edges at the
   * middle of the field's row, the bottom anchor under the row at the
   * table's centre line, the top anchor above it.
   */
  function FieldAnchors(column: Column, index: nat): (a: Anchors)
    ensures a.left.x == column.position.x && a.right.x == column.position.x + column.width
    ensures a.left.y == a.right.y
    ensures a.left.y == column.position.y + HeaderHeight + index as real * FieldHeight + FieldHeight / 2.0
    ensures a.top.x == a.bottom.x == column.position.x + column.width / 2.0
    ensures a.bottom.y == a.left.y + FieldHeight / 2.0
    ensures a.top.y == column.position.y + HeaderHeight / 2.0 + index as real * FieldHeight / 2.0
    ensures a.top.y < a.left.y
  {
    var p, i := column.position, index as real;
    var rowMiddle := p.y + HeaderHeight + i * FieldHeight + FieldHeight / 2.0;
    var centreX := p.x + column.width / 2.0;
    Anchors(
      Point(p.x, rowMiddle),
      Point(p.x + column.width, rowMiddle),
      Point(centreX, p.y + HeaderHeight / 2.0 + (if index > 0 then i * FieldHeight / 2.0 else 0.0)),
      Point(centreX, p.y + HeaderHeight + (i + 1.0) * FieldHeight))
  }

  /**
   * Rows stack one row height apart, and a row's bottom anchor lies half a
   * row above the next row's side anchors; the top anchor only moves half a
   * row per row.
   */
  lemma AnchorsStack(column: Column, index: nat)
    ensures var a, b := FieldAnchors(column, index), FieldAnchors(column, index + 1);
      && b.left.y == a.left.y + FieldHeight
      && a.bottom.y == b.left.y - FieldHeight / 2.0
      && b.top.y == a.top.y + FieldHeight / 2.0
  {
  }

  function Centre(column: Column): Point {
    Point(column.position.x + column.width / 2.0, column.position.y + column.height / 2.0)
  }

  /**
   * `getOptimalConnectionPoints`' choice: facing side anchors when the
   * tables are further apart across than down, facing top and bottom
   * anchors otherwise (ties included).
   */
  function Facing(dx: real, dy: real): (r: (Side, Side))
    ensures r.1 == Opposite(r.0)
    ensures r.0 == Right <==> Abs(dx) > Abs(dy) && dx > 0.0
    ensures r.0 == Left <==> Abs(dx) > Abs(dy) && dx < 0.0
    ensures r.0 == Bottom <==> Abs(dx) <= Abs(dy) && dy > 0.0
    ensures r.0 == Top <==> Abs(dx) <= Abs(dy) && dy <= 0.0
  {
    if Abs(dx) > Abs(dy) then
      (if dx > 0.0 then (Right, Left) else (Left, Right))
    else
      (if dy > 0.0 then (Bottom, Top) else (Top, Bottom))
  }

  /** Looking from the other table swaps the two sides, unless the centres coincide. */
  lemma FacingReversed(dx: real, dy: real)
    ensures Facing(-dx, -dy) == (Facing(dx, dy).1, Facing(dx, dy).0) <==> !(dx == 0.0 && dy == 0.0)
  {
  }

  // ---------------------------------------------------------------------------
  // Grid snapping and the route
  // ---------------------------------------------------------------------------

  /** `snapToGridPoint`: the point itself when snapping is off, the nearest grid point otherwise. */
  function SnapToGridPoint(p: Point, snap: bool, g: real): (r: Point)
    requires g > 0.0
    ensures !snap ==> r == p
    ensures snap ==> OnGrid(r.x, g) && OnGrid(r.y, g)
    ensures snap ==> p.x - g / 2.0 < r.x <= p.x + g / 2.0 && p.y - g / 2.0 < r.y <= p.y + g / 2.0
  {
    if !snap then p else Point(RoundToGrid(p.x, g), RoundToGrid(p.y, g))
  }

  datatype Connection = Connection(start: Point, end: Point)

  /** The snapped facing anchors of two located fields. */
  function ConnectionPoints(from: Column, fromIndex: nat, to: Column, toIndex: nat, snap: bool, g: real): Connection
    requires g > 0.0
  {
    var (s, e) := Facing(Centre(to).x - Centre(from).x, Centre(to).y - Centre(from).y);
    Connection(SnapToGridPoint(AnchorAt(FieldAnchors(from, fromIndex), s), snap, g),
               SnapToGridPoint(AnchorAt(FieldAnchors(to, toIndex), e), snap, g))
  }

  /** The line drawn for a relationship, or None when one of its ends is missing and nothing is drawn. */
  function Route(rel: Relationship, columns: seq<Column>, snap: bool, g: real): (r: Option<Connection>)
    requires g > 0.0
    ensures r.Some? <==> Locate(rel.from, columns).Some? && Locate(rel.to, columns).Some?
    ensures r.Some? && snap ==>
      && OnGrid(r.value.start.x, g) && OnGrid(r.value.start.y, g)
      && OnGrid(r.value.end.x, g) && OnGrid(r.value.end.y, g)
  {
    match (Locate(rel.from, columns), Locate(rel.to, columns))
    case (Some((from, fi)), Some((to, ti))) => Some(ConnectionPoints(from, fi, to, ti, snap, g))
    case _ => None
  }

  /** With distinct table ids, a relationship is drawn exactly when both of its fields exist. */
  lemma RouteSoftFail(rel: Relationship, columns: seq<Column>, snap: bool, g: real)
    requires g > 0.0 && DistinctKeys(columns, ColumnKey)
    ensures Route(rel, columns, snap, g).Some? <==>
      EndpointPresent(rel.from, columns) && EndpointPresent(rel.to, columns)
  {
    LocateIffPresent(rel.from, columns);
    LocateIffPresent(rel.to, columns);
  }

  /**
   * Drawing the relationship the other way round draws the same line with
   * its ends swapped, as long as the two tables' centres differ.
   */
  lemma RouteReversed(rel: Relationship, columns: seq<Column>, snap: bool, g: real)
    requires g > 0.0
    requires Locate(rel.from, columns).Some? && Locate(rel.to, columns).Some? ==>
      Centre(Locate(rel.from, columns).value.0) != Centre(Locate(rel.to, columns).value.0)
    ensures var back := Route(rel.(from := rel.to, to := rel.from), columns, snap, g);
      back == match Route(rel, columns, snap, g)
              case None => None
              case Some(c) => Some(Connection(c.end, c.start))
  {
    if Locate(rel.from, columns).Some? && Locate(rel.to, columns).Some? {
      var (from, _) := Locate(rel.from, columns).value;
      var (to, _) := Locate(rel.to, columns).value;
      var dx, dy := Centre(to).x - Centre(from).x, Centre(to).y - Centre(from).y;
      FacingReversed(dx, dy);
      assert Centre(from).x - Centre(to).x == -dx && Centre(from).y - Centre(to).y == -dy;
    }
  }

  // ---------------------------------------------------------------------------
  // Cardinality
  // ---------------------------------------------------------------------------

  /** The click cycle of the four types. */
  const RelationshipTypes: seq<string> := ["one-to-one", "one-to-many", "many-to-one", "many-to-many"]

  /** `types.indexOf(t)`: the type's place in the cycle, or -1 for a type outside it. */
  function TypeIndex(t: string): (i: int)
    ensures -1 <= i < |RelationshipTypes|
    ensures i >= 0 ==> RelationshipTypes[i] == t
    ensures i < 0 <==> t !in RelationshipTypes
  {
    if t == RelationshipTypes[0] then 0
    else if t == RelationshipTypes[1] then 1
    else if t == RelationshipTypes[2] then 2
    else if t == RelationshipTypes[3] then 3
    else -1
  }

  /** `cycleRelationshipType`: the next type in the cycle; a type outside it goes to one-to-one. */
  function NextType(t: string): (r: string)
    ensures r in RelationshipTypes
    ensures t !in RelationshipTypes ==> r == RelationshipTypes[0]
    ensures t in RelationshipTypes ==> TypeIndex(r) == (TypeIndex(t) + 1) % |RelationshipTypes|
  {
    RelationshipTypes[(TypeIndex(t) + 1) % |RelationshipTypes|]
  }

  /** Four clicks bring any type of the cycle back to itself, and no fewer do. */
  lemma NextTypeCycles(t: string)
    requires t in RelationshipTypes
    ensures NextType(NextType(NextType(NextType(t)))) == t
    ensures NextType(t) != t && NextType(NextType(t)) != t && NextType(NextType(NextType(t))) != t
  {
  }

  /** The initial type: the relationship's own, or one-to-many when it has none. */
  function InitialType(relType: string): (t: string)
    ensures relType != "" ==> t == relType
    ensures relType == "" ==> t == RelationshipTypes[1]
  {
    if relType == "" then "one-to-many" else relType
  }

  /** How an end of the line is marked: a bar for "one", a crow's foot for "many". */
  datatype Marker = Bar | CrowsFoot

  /** `drawMarkers`' choice of shapes for the from end and the to end. */
  function MarkerShapes(t: string): (Marker, Marker) {
    if t == "one-to-one" then (Bar, Bar)
    else if t == "many-to-one" then (CrowsFoot, Bar)
    else if t == "many-to-many" then (CrowsFoot, CrowsFoot)
    else (Bar, CrowsFoot)
  }

  /** `getRelationshipLabel`. */
  function Label(t: string): string {
    if t == "one-to-one" then "1:1"
    else if t == "one-to-many" then "1:N"
    else if t == "many-to-one" then "N:1"
    else if t == "many-to-many" then "N:N"
    else "1:N"
  }

  function Cardinality(m: Marker): char {
    match m
    case Bar => '1'
    case CrowsFoot => 'N'
  }

  /** The label spells out the two end markers: `1` for a bar, `N` for a crow's foot. */
  lemma LabelMatchesMarkers(t: string)
    ensures Label(t) == [Cardinality(MarkerShapes(t).0), ':', Cardinality(MarkerShapes(t).1)]
  {
  }

  /** A type outside the cycle is drawn and labelled as one-to-many. */
  lemma UnknownTypeDrawnAsOneToMany(t: string)
    requires t !in RelationshipTypes
    ensures MarkerShapes(t) == MarkerShapes("one-to-many") && Label(t) == Label("one-to-many")
  {
  }

  /** The four types of the cycle get four different labels. */
  lemma LabelsDistinguishTypes(s: string, t: string)
    requires s in RelationshipTypes && t in RelationshipTypes && s != t
    ensures Label(s) != Label(t) && MarkerShapes(s) != MarkerShapes(t)
  {
  }

  /** What is drawn for one relationship: the line, its label and its two end markers. */
  datatype Drawing = Drawing(line: Connection, caption: string, fromMarker: Marker, toMarker: Marker)

  class RelationshipView {
    const relationship: Relationship
    var relationshipType: string

    constructor (relationship: Relationship)
      ensures this.relationship == relationship
      ensures relationshipType == InitialType(relationship.relType)
    {
      this.relationship := relationship;
      relationshipType := InitialType(relationship.relType);
    }

    /** A click on the line moves to the next type of the cycle. */
    method CycleRelationshipType()
      modifies this`relationshipType
      ensures relationshipType == NextType(old(relationshipType))
    {
      var types := RelationshipTypes;
      var currentIndex := TypeIndex(relationshipType);
      var nextIndex := (currentIndex + 1) % |types|;
      relationshipType := types[nextIndex];
    }

    /** The component's output: nothing when an end is missing, the line with label and markers otherwise. */
    function Render(columns: seq<Column>, snap: bool, g: real): (r: Option<Drawing>)
      requires g > 0.0
      reads this
      ensures r.Some? <==> Route(relationship, columns, snap, g).Some?
      ensures r.Some? ==> r.value.line == Route(relationship, columns, snap, g).value
      ensures r.Some? ==> (r.value.fromMarker, r.value.toMarker) == MarkerShapes(relationshipType)
      ensures r.Some? ==> r.value.caption == Label(relationshipType)
      ensures r.Some? ==> r.value.caption == [Cardinality(r.value.fromMarker), ':', Cardinality(r.value.toMarker)]
    {
      match Route(relationship, columns, snap, g)
      case None => None
      case Some(line) =>
        LabelMatchesMarkers(relationshipType);
        var (fromMarker, toMarker) := MarkerShapes(relationshipType);
        Some(Drawing(line, Label(relationshipType), fromMarker, toMarker))
    }
  }

  /** Four clicks on a line of a known type bring it back to that type. */
  method CycleWalkthrough(relationship: Relationship)
    requires relationship.relType in RelationshipTypes
  {
    var view := new RelationshipView(relationship);
    view.CycleRelationshipType();
    view.CycleRelationshipType();
    view.CycleRelationshipType();
    view.CycleRelationshipType();
    NextTypeCycles(relationship.relType);
    assert view.relationshipType == relationship.relType;
  }
}
