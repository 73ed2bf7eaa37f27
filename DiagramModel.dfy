/**
 * The entities the diagram editor stores (tables, their fields, relationships)
 * and the two pieces of arithmetic that every component shares: JavaScript's
 * `Math.round` and rounding a coordinate to the grid.
 *
 * Coordinates are exact reals. The source's tables are called "columns" in
 * its code; the model keeps that name.
 */
module DiagramModel {
  import opened Common

  datatype Point = Point(x: real, y: real)

  /** A field (attribute) of a table. `fieldType` is one of the editor's type names. */
  datatype Field = Field(id: string, name: string, fieldType: string, isPrimary: bool)

  /** A table placed on the canvas. */
  datatype Column = Column(
    id: string,
    name: string,
    fields: seq<Field>,
    position: Point,
    width: real,
    height: real,
    zIndex: int)

  /** One end of a relationship: a field of a table, both named by id. */
  datatype Endpoint = Endpoint(columnId: string, fieldId: string)

  /** A relationship between two fields; `relType` is a cardinality name such as "one-to-many". */
  datatype Relationship = Relationship(id: string, from: Endpoint, to: Endpoint, relType: string)

  /** The keys the table component passes to `updateColumn`: a new name, or a whole new field list. */
  datatype ColumnPatch = ColumnPatch(name: Option<string>, fields: Option<seq<Field>>)

  /** `{ ...col, ...updates }`: every key present in the patch replaces the table's own. */
  function Merge(col: Column, patch: ColumnPatch): (r: Column)
    ensures r.id == col.id && r.position == col.position && r.zIndex == col.zIndex
    ensures r.width == col.width && r.height == col.height
    ensures r.name == (if patch.name.Some? then patch.name.value else col.name)
    ensures r.fields == (if patch.fields.Some? then patch.fields.value else col.fields)
  {
    var named := if patch.name.Some? then col.(name := patch.name.value) else col;
    if patch.fields.Some? then named.(fields := patch.fields.value) else named
  }

  /** The editor's grid spacing; nothing in the editor changes it. */
  const GridSize: real := 20.0

  // ---------------------------------------------------------------------------
  // Rounding
  // ---------------------------------------------------------------------------

  /** `Math.round`: the nearest integer, a half rounded towards +infinity (also for negatives). */
  function JsRound(v: real): (r: int)
    ensures v - 0.5 < r as real <= v + 0.5
  {
    (v + 0.5).Floor
  }

  /** At most one integer lies in the half-open window JsRound picks from. */
  lemma JsRoundUnique(v: real, k: int)
    requires v - 0.5 < k as real <= v + 0.5
    ensures JsRound(v) == k
  {
  }

  /** v is a whole multiple of the grid spacing g. */
  predicate OnGrid(v: real, g: real)
    requires g > 0.0
  {
    (v / g).Floor as real == v / g
  }

  /** `Math.round(v / g) * g`: the grid line nearest to v, ties going up. */
  function RoundToGrid(v: real, g: real): (r: real)
    requires g > 0.0
    ensures OnGrid(r, g)
    ensures v - g / 2.0 < r <= v + g / 2.0
  {
    var q := v / g;
    var k := JsRound(q);
    var kr := k as real;
    assert (kr * g) / g == kr;
    assert q * g == v;
    ScaleWindow(v, q, kr, g);
    kr * g
  }

  /** Scaling the window `q - 1/2 < k <= q + 1/2` by a positive g. */
  lemma ScaleWindow(v: real, q: real, k: real, g: real)
    requires g > 0.0 && q * g == v && q - 0.5 < k <= q + 0.5
    ensures v - g / 2.0 < k * g <= v + g / 2.0
  {
    var below, above := k - (q - 0.5), (q + 0.5) - k;
    assert below * g > 0.0;
    if above > 0.0 {
      assert above * g > 0.0;
    }
    assert below * g == k * g - q * g + g / 2.0;
    assert above * g == q * g + g / 2.0 - k * g;
  }

  /** A coordinate already on the grid does not move. */
  lemma RoundToGridKeepsGridPoints(v: real, g: real)
    requires g > 0.0 && OnGrid(v, g)
    ensures RoundToGrid(v, g) == v
  {
    var k := (v / g).Floor;
    JsRoundUnique(v / g, k);
    assert v / g * g == v;
  }

  /** Rounding to the grid twice is the same as rounding once. */
  lemma RoundToGridIdempotent(v: real, g: real)
    requires g > 0.0
    ensures RoundToGrid(RoundToGrid(v, g), g) == RoundToGrid(v, g)
  {
    RoundToGridKeepsGridPoints(RoundToGrid(v, g), g);
  }

  /** `Math.abs`. */
  function Abs(r: real): (a: real)
    ensures a >= 0.0 && (a == r || a == -r)
  {
    if r < 0.0 then -r else r
  }

  // ---------------------------------------------------------------------------
  // Lookups: Array.prototype.find and findIndex by id
  // ---------------------------------------------------------------------------

  /** A table's id, as the key the stores keep distinct. */
  function ColumnKey(c: Column): string {
    c.id
  }

  /** A field's id, the key `find` and `findIndex` compare fields by. */
  function FieldKey(f: Field): string {
    f.id
  }

  /** `findIndex(x => key(x) === id)`: the first index whose key is `id`, or -1. */
  function FindIndex<T>(s: seq<T>, key: T -> string, id: string): (i: int)
    ensures -1 <= i < |s|
    ensures i >= 0 ==> key(s[i]) == id
    ensures forall j :: 0 <= j < |s| && (i < 0 || j < i) ==> key(s[j]) != id
    decreases |s|
  {
    if s == [] then -1
    else if key(s[0]) == id then 0
    else
      var k := FindIndex(s[1..], key, id);
      if k < 0 then -1 else k + 1
  }

  /** `columns.findIndex(c => c.id === id)`. */
  function FindColumnIndex(columns: seq<Column>, id: string): (i: int)
    ensures -1 <= i < |columns|
    ensures i >= 0 ==> columns[i].id == id
    ensures forall j :: 0 <= j < |columns| && (i < 0 || j < i) ==> columns[j].id != id
  {
    FindIndex(columns, ColumnKey, id)
  }

  /** `columns.find(c => c.id === id)`, with None for `undefined`. */
  function FindColumn(columns: seq<Column>, id: string): Option<Column> {
    var i := FindColumnIndex(columns, id);
    if i < 0 then None else Some(columns[i])
  }

  /** `fields.findIndex(f => f.id === id)`. */
  function FindFieldIndex(fields: seq<Field>, id: string): (i: int)
    ensures -1 <= i < |fields|
    ensures i >= 0 ==> fields[i].id == id
    ensures forall j :: 0 <= j < |fields| && (i < 0 || j < i) ==> fields[j].id != id
  {
    FindIndex(fields, FieldKey, id)
  }

  /** `fields.find(f => f.id === id)`, with None for `undefined`. */
  function FindField(fields: seq<Field>, id: string): Option<Field> {
    var i := FindFieldIndex(fields, id);
    if i < 0 then None else Some(fields[i])
  }

  /** A lookup fails exactly when no table carries the id. */
  lemma FindColumnNoneIff(columns: seq<Column>, id: string)
    ensures FindColumn(columns, id).None? <==> forall j :: 0 <= j < |columns| ==> columns[j].id != id
  {
  }
}
