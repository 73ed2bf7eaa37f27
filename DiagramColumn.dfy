/**
 * One table on the canvas: the edits of its field list, the form that adds
 * a field, the inline rename of the table, and the routing of clicks on a
 * field into the editor's connection calls.
 *
 * Every field-list edit builds the new list from the table it was rendered
 * with and hands it to the editor as an `updateColumn` patch; `ColumnEditor`
 * carries the component's own form state.
 */
module DiagramColumn {
  import opened Common
  import opened DiagramModel
  import opened DiagramEditor
  import opened DiagramRelationship

  // ---------------------------------------------------------------------------
  // Field-list edits
  // ---------------------------------------------------------------------------

  /** The two lists hold the same field ids in the same order. */
  predicate SameFieldIds(a: seq<Field>, b: seq<Field>) {
    |a| == |b| && forall k :: 0 <= k < |a| ==> a[k].id == b[k].id
  }

  /** `deleteField`: every field with that id goes, the rest keep their order. */
  function RemoveField(fields: seq<Field>, id: string): (r: seq<Field>)
    ensures forall k :: 0 <= k < |r| ==> r[k].id != id && r[k] in fields
    ensures forall k :: 0 <= k < |fields| && fields[k].id != id ==> fields[k] in r
  {
    Filter(fields, (f: Field) => f.id != id)
  }

  /** After a delete no field with that id can be found. */
  lemma RemoveFieldLeavesNoMatch(fields: seq<Field>, id: string)
    ensures FindField(RemoveField(fields, id), id).None?
  {
  }

  /** Deleting a field that is not there changes nothing. */
  lemma RemoveAbsentField(fields: seq<Field>, id: string)
    requires FindField(fields, id).None?
    ensures RemoveField(fields, id) == fields
  {
    FilterAllPass(fields, (f: Field) => f.id != id);
  }

  /** `updateFieldName`: the fields with that id take the new name; nothing else changes. */
  function RenameField(fields: seq<Field>, id: string, name: string): (r: seq<Field>)
    ensures SameFieldIds(fields, r)
    ensures forall k :: 0 <= k < |r| && fields[k].id != id ==> r[k] == fields[k]
    ensures forall k :: 0 <= k < |r| && fields[k].id == id ==> r[k] == fields[k].(name := name)
  {
    seq(|fields|, k requires 0 <= k < |fields| =>
      if fields[k].id == id then fields[k].(name := name) else fields[k])
  }

  /** `updateFieldType`: the fields with that id take the new type; nothing else changes. */
  function RetypeField(fields: seq<Field>, id: string, fieldType: string): (r: seq<Field>)
    ensures SameFieldIds(fields, r)
    ensures forall k :: 0 <= k < |r| && fields[k].id != id ==> r[k] == fields[k]
    ensures forall k :: 0 <= k < |r| && fields[k].id == id ==> r[k] == fields[k].(fieldType := fieldType)
  {
    seq(|fields|, k requires 0 <= k < |fields| =>
      if fields[k].id == id then fields[k].(fieldType := fieldType) else fields[k])
  }

  /** `toggleFieldPrimary`: the fields with that id flip their key flag; nothing else changes. */
  function TogglePrimary(fields: seq<Field>, id: string): (r: seq<Field>)
    ensures SameFieldIds(fields, r)
    ensures forall k :: 0 <= k < |r| && fields[k].id != id ==> r[k] == fields[k]
    ensures forall k :: 0 <= k < |r| && fields[k].id == id ==>
      r[k] == fields[k].(isPrimary := !fields[k].isPrimary)
  {
    seq(|fields|, k requires 0 <= k < |fields| =>
      if fields[k].id == id then fields[k].(isPrimary := !fields[k].isPrimary) else fields[k])
  }

  /** Toggling the key flag twice gives back the original fields. */
  lemma TogglePrimaryTwice(fields: seq<Field>, id: string)
    ensures TogglePrimary(TogglePrimary(fields, id), id) == fields
  {
    var once := TogglePrimary(fields, id);
    var twice := TogglePrimary(once, id);
    forall k | 0 <= k < |fields| ensures twice[k] == fields[k] {
      assert once[k].id == fields[k].id;
    }
  }

  /** Looking a field up after an edit finds the edited field; other lookups find what they found before. */
  lemma FindAfterFieldEdit(fields: seq<Field>, id: string, name: string, fieldType: string, other: string)
    ensures var before := FindField(fields, other);
      && FindField(RenameField(fields, id, name), other)
         == (if before.Some? && other == id then Some(before.value.(name := name)) else before)
      && FindField(RetypeField(fields, id, fieldType), other)
         == (if before.Some? && other == id then Some(before.value.(fieldType := fieldType)) else before)
      && FindField(TogglePrimary(fields, id), other)
         == (if before.Some? && other == id then Some(before.value.(isPrimary := !before.value.isPrimary)) else before)
  {
    SameIdsSameFieldIndex(fields, RenameField(fields, id, name), other);
    SameIdsSameFieldIndex(fields, RetypeField(fields, id, fieldType), other);
    SameIdsSameFieldIndex(fields, TogglePrimary(fields, id), other);
  }

  lemma {:induction false} SameIdsSameFieldIndex(a: seq<Field>, b: seq<Field>, id: string)
    requires SameFieldIds(a, b)
    ensures FindFieldIndex(a, id) == FindFieldIndex(b, id)
    decreases |a|
  {
    if a != [] && a[0].id != id {
      SameIdsSameFieldIndex(a[1..], b[1..], id);
    }
  }

  // ---------------------------------------------------------------------------
  // Adding a field
  // ---------------------------------------------------------------------------

  /** The add-field form: the name, type and key flag typed so far. */
  datatype FieldDraft = FieldDraft(name: string, fieldType: string, isPrimary: bool)

  /** The form as it opens and as it resets: no name, type string, not a key. */
  const EmptyDraft: FieldDraft := FieldDraft("", "string", false)

  /** `field-${column.id}-${Date.now()}`. */
  function NewFieldId(columnId: string, now: nat): string {
    "field-" + columnId + "-" + NatToString(now)
  }

  /** Fields added to one table at different times get different ids. */
  lemma NewFieldIdsDiffer(columnId: string, now1: nat, now2: nat)
    requires now1 != now2
    ensures NewFieldId(columnId, now1) != NewFieldId(columnId, now2)
  {
    if NewFieldId(columnId, now1) == NewFieldId(columnId, now2) {
      PrefixesOfEqualStrings("field-" + columnId + "-", NatToString(now1), NatToString(now2));
      NatToStringInjective(now1, now2);
    }
  }

  /** An added field's id never collides with one of the two fields a new table is seeded with. */
  lemma NewFieldIdNotSeeded(n: nat, now: nat, m: nat, suffix: string)
    requires suffix == "-1" || suffix == "-2"
    ensures NewFieldId(ColumnId(n), now) != "field-" + NatToString(m) + suffix
  {
    var a, b := NewFieldId(ColumnId(n), now), "field-" + NatToString(m) + suffix;
    assert a[6] == 'c';
    assert b[6] == NatToString(m)[0];
  }

  /** A call `onUpdate(columnId, patch)` to the editor. */
  datatype Update = Update(columnId: string, patch: ColumnPatch)

  /**
   * `saveNewField`: nothing when the typed name is blank after trimming;
   * otherwise a patch appending exactly one field, made from the form as
   * typed (the name is stored untrimmed) with an id from the clock.
   */
  function NewFieldUpdate(column: Column, draft: FieldDraft, now: nat): (u: Option<Update>)
    ensures u.None? <==> forall i :: 0 <= i < |draft.name| ==> IsJsWhitespace(draft.name[i])
    ensures u.Some? ==>
      && u.value.columnId == column.id && u.value.patch.name.None? && u.value.patch.fields.Some?
      && var fields := u.value.patch.fields.value;
      && |fields| == |column.fields| + 1
      && fields[..|column.fields|] == column.fields
      && fields[|column.fields|] == Field(NewFieldId(column.id, now), draft.name, draft.fieldType, draft.isPrimary)
  {
    TrimEmptyIffBlank(draft.name);
    if Trim(draft.name) == [] then None
    else
      var added := Field(NewFieldId(column.id, now), draft.name, draft.fieldType, draft.isPrimary);
      Some(Update(column.id, ColumnPatch(None, Some(column.fields + [added]))))
  }

  // ---------------------------------------------------------------------------
  // Routing of field clicks to the editor's connection calls
  // ---------------------------------------------------------------------------

  /** What a click asks of the editor: nothing, `onFieldConnectionStart` or `onFieldConnectionComplete`. */
  datatype ConnectionCall = NoCall | StartCall(start: Endpoint) | CompleteCall(target: Endpoint)

  /** `isConnectionSource`: the field is where the pending connection starts. */
  predicate IsConnectionSource(isConnecting: bool, connectionStart: Option<Endpoint>, columnId: string, fieldId: string) {
    isConnecting && connectionStart.Some? &&
    connectionStart.value.columnId == columnId && connectionStart.value.fieldId == fieldId
  }

  lemma IsConnectionSourceIff(isConnecting: bool, connectionStart: Option<Endpoint>, columnId: string, fieldId: string)
    ensures IsConnectionSource(isConnecting, connectionStart, columnId, fieldId)
       <==> isConnecting && connectionStart == Some(Endpoint(columnId, fieldId))
  {
  }

  /** `handleFieldConnectionClick`: the connect button completes while connecting and starts otherwise. */
  function ConnectButtonCall(isConnecting: bool, columnId: string, fieldId: string): (c: ConnectionCall)
    ensures c != NoCall
    ensures c.CompleteCall? <==> isConnecting
    ensures c.StartCall? ==> c.start == Endpoint(columnId, fieldId)
    ensures c.CompleteCall? ==> c.target == Endpoint(columnId, fieldId)
  {
    if isConnecting then CompleteCall(Endpoint(columnId, fieldId)) else StartCall(Endpoint(columnId, fieldId))
  }

  /** `handleFieldClick`: a click on a field row completes only while connecting, and never on the source field. */
  function FieldClickCall(isConnecting: bool, connectionStart: Option<Endpoint>, columnId: string, fieldId: string): (c: ConnectionCall)
    ensures !c.StartCall?
    ensures c.CompleteCall? <==> isConnecting && connectionStart != Some(Endpoint(columnId, fieldId))
    ensures c.CompleteCall? ==> c.target == Endpoint(columnId, fieldId)
  {
    if isConnecting && !IsConnectionSource(isConnecting, connectionStart, columnId, fieldId) then
      CompleteCall(Endpoint(columnId, fieldId))
    else NoCall
  }

  /** Hands a call to the editor session, as the table's props do. */
  method Dispatch(session: EditorSession, call: ConnectionCall)
    modifies session`relationships, session`isConnecting, session`connectionStart
    ensures call.NoCall? ==>
      && session.relationships == old(session.relationships)
      && session.isConnecting == old(session.isConnecting)
      && session.connectionStart == old(session.connectionStart)
    ensures call.StartCall? ==>
      && session.relationships == old(session.relationships)
      && session.isConnecting && session.connectionStart == Some(call.start)
    ensures call.CompleteCall? && old(session.isConnecting) && old(session.connectionStart).Some? ==>
      && !session.isConnecting && session.connectionStart.None?
      && session.relationships == old(session.relationships) +
           (if old(session.connectionStart) == Some(call.target) then []
            else [NewRelationship(|old(session.relationships)|, old(session.connectionStart).value, call.target)])
    ensures call.CompleteCall? && !(old(session.isConnecting) && old(session.connectionStart).Some?) ==>
      && session.relationships == old(session.relationships)
      && session.isConnecting == old(session.isConnecting)
      && session.connectionStart == old(session.connectionStart)
  {
    match call
    case NoCall =>
    case StartCall(e) => session.StartConnection(e.columnId, e.fieldId);
    case CompleteCall(e) => session.CompleteConnection(e.columnId, e.fieldId);
  }

  /**
   * Pressing a field's connect button twice starts and then cancels a
   * connection; pressing it and then clicking another field's row draws
   * one relationship.
   */
  method ConnectButtonWalkthrough(session: EditorSession, a: Endpoint, b: Endpoint)
    requires !session.isConnecting && a != b
    modifies session`relationships, session`isConnecting, session`connectionStart
    ensures session.relationships == old(session.relationships) + [NewRelationship(|old(session.relationships)|, a, b)]
  {
    Dispatch(session, ConnectButtonCall(session.isConnecting, a.columnId, a.fieldId));
    Dispatch(session, ConnectButtonCall(session.isConnecting, a.columnId, a.fieldId));
    assert session.relationships == old(session.relationships) && !session.isConnecting;
    Dispatch(session, ConnectButtonCall(session.isConnecting, a.columnId, a.fieldId));
    IsConnectionSourceIff(session.isConnecting, session.connectionStart, a.columnId, a.fieldId);
    Dispatch(session, FieldClickCall(session.isConnecting, session.connectionStart, a.columnId, a.fieldId));
    Dispatch(session, FieldClickCall(session.isConnecting, session.connectionStart, b.columnId, b.fieldId));
  }

  // ---------------------------------------------------------------------------
  // Field edits and the relationship lines
  // ---------------------------------------------------------------------------

  /** The two tables agree on everything a relationship line is computed from. */
  predicate SameGeometry(a: Column, b: Column) {
    && a.id == b.id && a.position == b.position && a.width == b.width && a.height == b.height
    && SameFieldIds(a.fields, b.fields)
  }

  predicate SameLayout(a: seq<Column>, b: seq<Column>) {
    |a| == |b| && forall i :: 0 <= i < |a| ==> SameGeometry(a[i], b[i])
  }

  lemma {:induction false} SameLayoutSameColumnIndex(a: seq<Column>, b: seq<Column>, id: string)
    requires SameLayout(a, b)
    ensures FindColumnIndex(a, id) == FindColumnIndex(b, id)
    decreases |a|
  {
    if a != [] && a[0].id != id {
      assert SameGeometry(a[0], b[0]);
      assert SameLayout(a[1..], b[1..]) by {
        forall i | 0 <= i < |a| - 1 ensures SameGeometry(a[1..][i], b[1..][i]) {
          assert SameGeometry(a[i + 1], b[i + 1]);
        }
      }
      SameLayoutSameColumnIndex(a[1..], b[1..], id);
    }
  }

  /** An endpoint is found at the same place in two tables of the same geometry. */
  lemma LocateSameLayout(e: Endpoint, a: seq<Column>, b: seq<Column>)
    requires SameLayout(a, b)
    ensures Locate(e, a).Some? <==> Locate(e, b).Some?
    ensures Locate(e, a).Some? ==>
      Locate(e, a).value.1 == Locate(e, b).value.1 && SameGeometry(Locate(e, a).value.0, Locate(e, b).value.0)
  {
    SameLayoutSameColumnIndex(a, b, e.columnId);
    var ci := FindColumnIndex(a, e.columnId);
    if ci >= 0 {
      assert SameGeometry(a[ci], b[ci]);
      SameIdsSameFieldIndex(a[ci].fields, b[ci].fields, e.fieldId);
    }
  }

  lemma ConnectionPointsSameGeometry(from1: Column, from2: Column, fi: nat, to1: Column, to2: Column, ti: nat, snap: bool, g: real)
    requires g > 0.0 && SameGeometry(from1, from2) && SameGeometry(to1, to2)
    ensures ConnectionPoints(from1, fi, to1, ti, snap, g) == ConnectionPoints(from2, fi, to2, ti, snap, g)
  {
    assert Centre(from1) == Centre(from2) && Centre(to1) == Centre(to2);
    assert FieldAnchors(from1, fi) == FieldAnchors(from2, fi);
    assert FieldAnchors(to1, ti) == FieldAnchors(to2, ti);
  }

  /** A relationship line depends only on the tables' ids, geometry and field ids. */
  lemma RouteDependsOnLayout(rel: Relationship, a: seq<Column>, b: seq<Column>, snap: bool, g: real)
    requires g > 0.0 && SameLayout(a, b)
    ensures Route(rel, a, snap, g) == Route(rel, b, snap, g)
  {
    LocateSameLayout(rel.from, a, b);
    LocateSameLayout(rel.to, a, b);
    if Locate(rel.from, a).Some? && Locate(rel.to, a).Some? {
      var (f1, fi) := Locate(rel.from, a).value;
      var (t1, ti) := Locate(rel.to, a).value;
      var (f2, _) := Locate(rel.from, b).value;
      var (t2, _) := Locate(rel.to, b).value;
      ConnectionPointsSameGeometry(f1, f2, fi, t1, t2, ti, snap, g);
    }
  }

  /** With distinct table ids, `updateColumn` only reaches the table that `find` returns. */
  lemma UpdateOnlyTouchesFound(columns: seq<Column>, id: string, c: Column, patch: ColumnPatch, i: nat)
    requires DistinctKeys(columns, ColumnKey) && FindColumn(columns, id) == Some(c)
    requires i < |columns| && columns[i].id == id
    ensures columns[i] == c
  {
    var ci := FindColumnIndex(columns, id);
    assert ColumnKey(columns[ci]) == ColumnKey(columns[i]);
  }

  /**
   * Renaming a table or renaming, retyping or re-keying one of its fields
   * leaves every relationship line where it was.
   */
  lemma FieldEditsKeepRoutes(rel: Relationship, columns: seq<Column>, id: string, c: Column,
                             name: Option<string>, fields: Option<seq<Field>>, snap: bool, g: real)
    requires g > 0.0 && DistinctKeys(columns, ColumnKey) && FindColumn(columns, id) == Some(c)
    requires fields.Some? ==> SameFieldIds(c.fields, fields.value)
    ensures Route(rel, UpdateColumns(columns, id, ColumnPatch(name, fields)), snap, g) == Route(rel, columns, snap, g)
  {
    var after := UpdateColumns(columns, id, ColumnPatch(name, fields));
    forall i | 0 <= i < |columns| ensures SameGeometry(columns[i], after[i]) {
      if columns[i].id == id {
        UpdateOnlyTouchesFound(columns, id, c, ColumnPatch(name, fields), i);
      }
    }
    RouteDependsOnLayout(rel, columns, after, snap, g);
  }

  /** The three field edits keep the field ids, so they keep the lines too. */
  lemma FieldEditsKeepIds(fields: seq<Field>, id: string, name: string, fieldType: string)
    ensures SameFieldIds(fields, RenameField(fields, id, name))
    ensures SameFieldIds(fields, RetypeField(fields, id, fieldType))
    ensures SameFieldIds(fields, TogglePrimary(fields, id))
  {
  }

  /** Deleting the field a relationship starts or ends at makes that relationship disappear from the canvas. */
  lemma DeleteFieldDropsRoute(rel: Relationship, columns: seq<Column>, c: Column, fieldId: string, snap: bool, g: real)
    requires g > 0.0 && FindColumn(columns, c.id) == Some(c)
    requires rel.from == Endpoint(c.id, fieldId) || rel.to == Endpoint(c.id, fieldId)
    ensures Route(rel, UpdateColumns(columns, c.id, ColumnPatch(None, Some(RemoveField(c.fields, fieldId)))), snap, g).None?
  {
    var patch := ColumnPatch(None, Some(RemoveField(c.fields, fieldId)));
    FindAfterUpdate(columns, c.id, patch, c.id);
    RemoveFieldLeavesNoMatch(c.fields, fieldId);
  }

  // ---------------------------------------------------------------------------
  // The component's form state
  // ---------------------------------------------------------------------------

  class ColumnEditor {
    var isEditing: bool
    var editingName: string
    var addingField: bool
    var newField: FieldDraft

    constructor (column: Column)
      ensures !isEditing && editingName == column.name
      ensures !addingField && newField == EmptyDraft
    {
      isEditing := false;
      editingName := column.name;
      addingField := false;
      newField := EmptyDraft;
    }

    /** A double click on the title opens the rename box. */
    method StartEditing()
      modifies this`isEditing
      ensures isEditing
    {
      isEditing := true;
    }

    /** Typing in the rename box. */
    method SetEditingName(text: string)
      modifies this`editingName
      ensures editingName == text
    {
      editingName := text;
    }

    /** `saveNameEdit` (on blur or Enter): patches the table's name with the box's text and closes it. */
    method SaveNameEdit(column: Column) returns (update: Update)
      modifies this`isEditing
      ensures update == Update(column.id, ColumnPatch(Some(editingName), None))
      ensures !isEditing
    {
      update := Update(column.id, ColumnPatch(Some(editingName), None));
      isEditing := false;
    }

    /** `handleAddField`: opens the add-field form. */
    method HandleAddField()
      modifies this`addingField
      ensures addingField
    {
      addingField := true;
    }

    /** Typing in the form: each input replaces its own key of the draft. */
    method SetDraftName(name: string)
      modifies this`newField
      ensures newField == old(newField).(name := name)
    {
      newField := newField.(name := name);
    }

    method SetDraftType(fieldType: string)
      modifies this`newField
      ensures newField == old(newField).(fieldType := fieldType)
    {
      newField := newField.(fieldType := fieldType);
    }

    method SetDraftPrimary(isPrimary: bool)
      modifies this`newField
      ensures newField == old(newField).(isPrimary := isPrimary)
    {
      newField := newField.(isPrimary := isPrimary);
    }

    /**
     * `saveNewField` at clock reading `now`: a blank name leaves everything
     * as it is; otherwise the update is sent and the form closes and resets.
     */
    method SaveNewField(column: Column, now: nat) returns (update: Option<Update>)
      modifies this`addingField, this`newField
      ensures update == NewFieldUpdate(column, old(newField), now)
      ensures update.None? ==> addingField == old(addingField) && newField == old(newField)
      ensures update.Some? ==> !addingField && newField == EmptyDraft
    {
      TrimEmptyIffBlank(newField.name);
      if Trim(newField.name) == [] {
        return None;
      }
      var newFieldId := NewFieldId(column.id, now);
      var updatedFields := column.fields + [Field(newFieldId, newField.name, newField.fieldType, newField.isPrimary)];
      update := Some(Update(column.id, ColumnPatch(None, Some(updatedFields))));
      addingField := false;
      newField := EmptyDraft;
    }

    /** `cancelAddField`: closes and resets the form. */
    method CancelAddField()
      modifies this`addingField, this`newField
      ensures !addingField && newField == EmptyDraft
    {
      addingField := false;
      newField := EmptyDraft;
    }
  }

  /** A field named only with spaces is refused, and the form stays open with what was typed. */
  method BlankNameWalkthrough(column: Column, now: nat) {
    var editor := new ColumnEditor(column);
    editor.HandleAddField();
    editor.SetDraftName("   ");
    var update := editor.SaveNewField(column, now);
    assert IsJsWhitespace(editor.newField.name[0]);
    assert update.None? && editor.addingField;
  }
}
