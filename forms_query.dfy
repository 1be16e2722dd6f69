/**
 * `FormsBuilder.findRecord`: the projection query that fetches the record
 * shown in a form, built from the layout's elements.
 */
module FormsQuery {
  import opened Wrappers
  import opened Text
  import opened JsonValues
  import opened FormsMeta

  /** The columns one layout field contributes: none for `$`-prefixed or unknown fields, `&f` before `f` for a followed reference. */
  function FieldColumns(env: Env, entity: EntityDef, field: string): seq<string> {
    if StartsWith(field, "$") || field !in entity.fields then []
    else match entity.fields[field].kind
      case ReferenceTo(ec) =>
        if ec == env.classificationDataCode || ec == env.pickListCode then [field] else ["&" + field, field]
      case Scalar => [field]
  }

  /** The element's columns; an element without a field name has none (the caller aborts on it). */
  function ElementColumns(env: Env, entity: EntityDef, el: JsonObject): seq<string> {
    match StringOf(env, el, "field")
    case None => []
    case Some(f) => FieldColumns(env, entity, f)
  }

  /** The columns of all elements in layout order, or a null-pointer fault at the first element without a field name. */
  function ProjectedColumns(env: Env, entity: EntityDef, elements: seq<JsonObject>): Outcome<seq<string>> {
    if |elements| == 0 then Done([])
    else
      match ProjectedColumns(env, entity, elements[..|elements| - 1])
      case Aborted(f) => Aborted(f)
      case Done(cols) =>
        if StringOf(env, elements[|elements| - 1], "field").None? then Aborted(NullValue)
        else Done(cols + ElementColumns(env, entity, elements[|elements| - 1]))
  }

  /**
   * The query text: the columns separated by commas, then the modification
   * time when the entity has one, and the primary field equal to the quoted id.
   */
  function QueryText(entity: EntityDef, cols: seq<string>, id: RecId): string {
    var selected :=
      if ModifiedOn in entity.fields then "select " + JoinComma(cols + [ModifiedOn])
      else if |cols| == 0 then "select"
      else "select " + JoinComma(cols);
    selected + " from " + entity.name + " where " + entity.primaryField + " = '" + id.literal + "'"
  }

  /** The text a `StringBuffer` holds after appending each column followed by a comma. */
  function Suffixed(cols: seq<string>): string {
    if |cols| == 0 then "" else Suffixed(cols[..|cols| - 1]) + cols[|cols| - 1] + ","
  }

  lemma {:induction false} JoinAfterSuffixed(cols: seq<string>, x: string)
    ensures JoinComma(cols + [x]) == Suffixed(cols) + x
  {
    if |cols| > 0 {
      var init := cols[..|cols| - 1];
      var last := cols[|cols| - 1];
      assert (cols + [x])[..|cols|] == cols;
      assert init + [last] == cols;
      JoinAfterSuffixed(init, last);
    }
  }

  lemma SuffixedEndsWithComma(cols: seq<string>)
    requires |cols| > 0
    ensures Suffixed(cols) == JoinComma(cols) + ","
  {
    var init := cols[..|cols| - 1];
    assert init + [cols[|cols| - 1]] == cols;
    JoinAfterSuffixed(init, cols[|cols| - 1]);
  }

  /** The projection query, built as `findRecord` builds it, in a buffer. */
  method ProjectionQuery(env: Env, entity: EntityDef, id: RecId, elements: seq<JsonObject>) returns (q: Outcome<string>)
    ensures ProjectedColumns(env, entity, elements).Aborted? ==> q == Aborted(ProjectedColumns(env, entity, elements).fault)
    ensures ProjectedColumns(env, entity, elements).Done? ==> q == Done(QueryText(entity, ProjectedColumns(env, entity, elements).value, id))
  {
    var ajql := "select ";
    var i := 0;
    while i < |elements|
      invariant 0 <= i <= |elements|
      invariant ProjectedColumns(env, entity, elements[..i]).Done?
      invariant ajql == "select " + Suffixed(ProjectedColumns(env, entity, elements[..i]).value)
    {
      var field := StringOf(env, elements[i], "field");
      if field.None? {
        NullFieldAborts(env, entity, elements, i);
        return Aborted(NullValue);
      }
      ajql := AppendElement(env, entity, elements, i, ajql);
      i := i + 1;
    }
    assert elements[..|elements|] == elements;
    var text := CloseProjection(entity, ProjectedColumns(env, entity, elements).value, ajql, id);
    q := Done(text);
  }

  /** The loop body of `findRecord` for an element that names a field. */
  method AppendElement(env: Env, entity: EntityDef, elements: seq<JsonObject>, i: nat, ajql: string) returns (out: string)
    requires i < |elements| && ProjectedColumns(env, entity, elements[..i]).Done?
    requires StringOf(env, elements[i], "field").Some?
    requires ajql == "select " + Suffixed(ProjectedColumns(env, entity, elements[..i]).value)
    ensures ProjectedColumns(env, entity, elements[..i + 1]).Done?
    ensures out == "select " + Suffixed(ProjectedColumns(env, entity, elements[..i + 1]).value)
  {
    ProjectedStep(env, entity, elements, i);
    out := AppendFieldColumns(env, entity, ajql, StringOf(env, elements[i], "field").value);
    SuffixedAppend(ProjectedColumns(env, entity, elements[..i]).value, ElementColumns(env, entity, elements[i]));
  }

  lemma NullFieldAborts(env: Env, entity: EntityDef, elements: seq<JsonObject>, i: nat)
    requires i < |elements| && ProjectedColumns(env, entity, elements[..i]).Done?
    requires StringOf(env, elements[i], "field").None?
    ensures ProjectedColumns(env, entity, elements) == Aborted(NullValue)
  {
    ProjectedStep(env, entity, elements, i);
    PrefixAbortStays(env, entity, elements, i + 1);
  }

  /** The end of `findRecord`'s query: the modification time or the dropped trailing character, then the condition. */
  method CloseProjection(entity: EntityDef, ghost cols: seq<string>, buffer: string, id: RecId) returns (text: string)
    requires buffer == "select " + Suffixed(cols)
    ensures text == QueryText(entity, cols, id)
  {
    var ajql := buffer;
    if ModifiedOn in entity.fields {
      ajql := ajql + ModifiedOn;
      JoinAfterSuffixed(cols, ModifiedOn);
      assert ajql == "select " + JoinComma(cols + [ModifiedOn]);
    } else {
      if |cols| > 0 {
        SuffixedEndsWithComma(cols);
        assert ajql == "select " + JoinComma(cols) + ",";
        assert ajql[..|ajql| - 1] == "select " + JoinComma(cols);
      } else {
        assert ajql[..|ajql| - 1] == "select";
      }
      ajql := ajql[..|ajql| - 1];
    }
    text := ajql + " from " + entity.name + " where " + entity.primaryField + " = '" + id.literal + "'";
  }

  /** One turn of the `findRecord` loop: append the columns of the named field, each followed by a comma. */
  method AppendFieldColumns(env: Env, entity: EntityDef, ajql: string, name: string) returns (out: string)
    ensures out == ajql + Suffixed(FieldColumns(env, entity, name))
  {
    out := ajql;
    if !StartsWith(name, "$") && name in entity.fields {
      var fieldMeta := entity.fields[name];
      if fieldMeta.kind.ReferenceTo? {
        var ec := fieldMeta.kind.targetCode;
        if !(ec == env.classificationDataCode || ec == env.pickListCode) {
          out := out + "&" + name + ",";
        }
      }
      out := out + name + ",";
    }
    ghost var added := FieldColumns(env, entity, name);
    if |added| == 2 {
      assert added[..1] == ["&" + name] && added[..1][..0] == [];
      assert Suffixed(added[..1]) == "&" + name + ",";
      assert Suffixed(added) == "&" + name + "," + name + ",";
    } else if |added| == 1 {
      assert added[..0] == [];
      assert Suffixed(added) == name + ",";
    }
  }

  lemma {:induction false} SuffixedAppend(a: seq<string>, b: seq<string>)
    ensures Suffixed(a + b) == Suffixed(a) + Suffixed(b)
  {
    if |b| > 0 {
      var init := b[..|b| - 1];
      assert (a + b)[..|a + b| - 1] == a + init;
      SuffixedAppend(a, init);
    } else {
      assert a + b == a;
    }
  }

  lemma ProjectedStep(env: Env, entity: EntityDef, elements: seq<JsonObject>, i: nat)
    requires i < |elements| && ProjectedColumns(env, entity, elements[..i]).Done?
    ensures StringOf(env, elements[i], "field").None? ==> ProjectedColumns(env, entity, elements[..i + 1]) == Aborted(NullValue)
    ensures StringOf(env, elements[i], "field").Some? ==>
              ProjectedColumns(env, entity, elements[..i + 1])
              == Done(ProjectedColumns(env, entity, elements[..i]).value + ElementColumns(env, entity, elements[i]))
  {
    assert elements[..i + 1][..i] == elements[..i];
  }

  /** Once a prefix of the elements aborts, so do all longer prefixes. */
  lemma {:induction false} PrefixAbortStays(env: Env, entity: EntityDef, elements: seq<JsonObject>, n: nat)
    requires n <= |elements| && ProjectedColumns(env, entity, elements[..n]).Aborted?
    ensures ProjectedColumns(env, entity, elements) == Aborted(ProjectedColumns(env, entity, elements[..n]).fault)
    decreases |elements| - n
  {
    if n < |elements| {
      assert elements[..n + 1][..n] == elements[..n];
      PrefixAbortStays(env, entity, elements, n + 1);
    } else {
      assert elements[..n] == elements;
    }
  }

  /**
   * A column appears in the query exactly when some element contributes it:
   * a field of the entity not starting with `$`, or `&` and such a field when
   * it references an entity other than pick-list items and classification data.
   */
  lemma {:induction false} ColumnsComeFromElements(env: Env, entity: EntityDef, elements: seq<JsonObject>)
    requires ProjectedColumns(env, entity, elements).Done?
    ensures forall i :: 0 <= i < |elements| ==> StringOf(env, elements[i], "field").Some?
    ensures forall c :: c in ProjectedColumns(env, entity, elements).value <==>
              exists i :: 0 <= i < |elements| && c in ElementColumns(env, entity, elements[i])
  {
    if |elements| > 0 {
      var init := elements[..|elements| - 1];
      ColumnsComeFromElements(env, entity, init);
      assert forall i :: 0 <= i < |init| ==> init[i] == elements[i];
    }
  }

  /** The columns a single field contributes, by its kind. */
  lemma FieldColumnsRule(env: Env, entity: EntityDef, field: string)
    ensures StartsWith(field, "$") || field !in entity.fields ==> FieldColumns(env, entity, field) == []
    ensures !StartsWith(field, "$") && field in entity.fields ==> field in FieldColumns(env, entity, field)
    ensures ("&" + field in FieldColumns(env, entity, field)) <==>
              && !StartsWith(field, "$") && field in entity.fields
              && entity.fields[field].kind.ReferenceTo?
              && entity.fields[field].kind.targetCode != env.classificationDataCode
              && entity.fields[field].kind.targetCode != env.pickListCode
  {
    assert "&" + field != field by {
      assert |"&" + field| == |field| + 1;
    }
  }

  /** A query always names the entity and ends in the condition on its primary field. */
  lemma QueryEndsWithIdCondition(entity: EntityDef, cols: seq<string>, id: RecId)
    ensures var q := QueryText(entity, cols, id);
            var tail := " from " + entity.name + " where " + entity.primaryField + " = '" + id.literal + "'";
            StartsWith(q, "select") && |tail| <= |q| && q[|q| - |tail|..] == tail
  {
  }

  /**
   * The record lookup of `findRecord`: nothing for an empty layout, otherwise
   * the result of running the query for the id's entity as the user.
   */
  function RecordLookup(env: Env, id: RecId, user: RecId, elements: seq<JsonObject>): (r: Outcome<Option<StoredRecord>>)
    ensures |elements| == 0 ==> r == Done(None)
    ensures |elements| > 0 && env.entityByCode(id.entityCode).None? ==> r == Aborted(UnknownEntity)
  {
    if |elements| == 0 then Done(None)
    else match env.entityByCode(id.entityCode)
      case None => Aborted(UnknownEntity)
      case Some(entity) =>
        match ProjectedColumns(env, entity, elements)
        case Aborted(f) => Aborted(f)
        case Done(cols) => Done(env.queryRecord(QueryText(entity, cols, id), user))
  }

  /** `findRecord`. */
  method FindRecord(env: Env, id: RecId, user: RecId, elements: seq<JsonObject>) returns (r: Outcome<Option<StoredRecord>>)
    ensures r == RecordLookup(env, id, user, elements)
  {
    if |elements| == 0 {
      return Done(None);
    }
    var entity := env.entityByCode(id.entityCode);
    if entity.None? {
      return Aborted(UnknownEntity);
    }
    var q := ProjectionQuery(env, entity.value, id, elements);
    match q
    case Aborted(f) => r := Aborted(f);
    case Done(text) => r := Done(env.queryRecord(text, user));
  }
}
