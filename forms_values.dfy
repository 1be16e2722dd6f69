/**
 * `FormsBuilder.wrapFieldValue`: how a stored field value is presented in a
 * form (edit mode) or a view, dispatched on the field's display type.
 */
module FormsValues {
  import opened Wrappers
  import opened Text
  import opened JsonValues
  import opened FormsMeta

  /** The label of an id value: its own label, or its literal upper-cased in square brackets. */
  function IdLabel(id: RecId): (r: string)
    ensures id.labelText.Some? ==> r == id.labelText.value
    ensures id.labelText.None? ==>
              |r| == |id.literal| + 2 && r[0] == '[' && r[|r| - 1] == ']' && r[1..|r| - 1] == Upper(id.literal)
  {
    match id.labelText
    case Some(l) => l
    case None => "[" + Upper(id.literal) + "]"
  }

  /** Number and decimal values lose their thousands separators in edit mode. */
  predicate StripsSeparators(dt: DisplayType, isView: bool) {
    !isView && (dt == Number || dt == Decimal)
  }

  /**
   * The presented value of the field, or null when the record holds no value
   * for it. Pick-list and classification values must be ids.
   */
  function WrapFieldValue(env: Env, data: StoredRecord, field: FieldDef, isView: bool): (r: Outcome<Option<Json>>)
    ensures r == Done(None) <==> field.name !in data
    ensures r.Aborted? <==> field.name in data && (field.displayType == PickList || field.displayType == Classification)
                                                && !data[field.name].StoredId?
    ensures r.Aborted? ==> r.fault == BadCast
  {
    if field.name !in data then Done(None)
    else
      var value := data[field.name];
      match field.displayType
      case PickList =>
        if !value.StoredId? then Aborted(BadCast)
        else if isView then Done(Some(JStr(DefaultIfBlank(env.pickLabel(value.id), env.missRefPlace))))
        else Done(Some(JStr(value.id.literal)))
      case Classification =>
        if !value.StoredId? then Aborted(BadCast)
        else
          var itemName := DefaultIfBlank(env.classificationName(value.id), env.missRefPlace);
          Done(Some(if isView then JStr(itemName) else JArr([JStr(value.id.literal), JStr(itemName)])))
      case _ =>
        if value.StoredId? then
          Done(Some(JArr([JStr(value.id.literal), JStr(IdLabel(value.id)), JStr(env.entityNameOf(value.id))])))
        else
          var ret := env.formatValue(value, field);
          Done(Some(JStr(if StripsSeparators(field.displayType, isView) then RemoveChar(ret, ',') else ret)))
  }

  /** A pick-list value is shown by its label (or the missing-reference text when blank) and edited by its id. */
  lemma PickListValue(env: Env, data: StoredRecord, field: FieldDef, isView: bool, id: RecId)
    requires field.displayType == PickList && field.name in data && data[field.name] == StoredId(id)
    ensures isView && !IsBlank(env.pickLabel(id)) ==> WrapFieldValue(env, data, field, isView) == Done(Some(JStr(env.pickLabel(id).value)))
    ensures isView && IsBlank(env.pickLabel(id)) ==> WrapFieldValue(env, data, field, isView) == Done(Some(JStr(env.missRefPlace)))
    ensures !isView ==> WrapFieldValue(env, data, field, isView) == Done(Some(JStr(id.literal)))
  {
  }

  /** A classification value is shown by its name and edited as the pair of its id and that name. */
  lemma ClassificationValue(env: Env, data: StoredRecord, field: FieldDef, isView: bool, id: RecId)
    requires field.displayType == Classification && field.name in data && data[field.name] == StoredId(id)
    ensures var name := DefaultIfBlank(env.classificationName(id), env.missRefPlace);
            && (isView ==> WrapFieldValue(env, data, field, isView) == Done(Some(JStr(name))))
            && (!isView ==> WrapFieldValue(env, data, field, isView) == Done(Some(JArr([JStr(id.literal), JStr(name)]))))
  {
  }

  /** Any other id value becomes the triple of its literal, its label and its entity's name, in both modes. */
  lemma OtherIdValue(env: Env, data: StoredRecord, field: FieldDef, isView: bool, id: RecId)
    requires field.displayType != PickList && field.displayType != Classification
    requires field.name in data && data[field.name] == StoredId(id)
    ensures id.labelText.Some? ==>
              WrapFieldValue(env, data, field, isView) == Done(Some(JArr([JStr(id.literal), JStr(id.labelText.value), JStr(env.entityNameOf(id))])))
    ensures id.labelText.None? ==>
              WrapFieldValue(env, data, field, isView) == Done(Some(JArr([JStr(id.literal), JStr("[" + Upper(id.literal) + "]"), JStr(env.entityNameOf(id))])))
  {
  }

  /**
   * An edited number or decimal is the formatted text with its commas
   * removed: no comma is left, every other character stays in its order
   * (`Text.RemoveCharAppend`), and text without a comma is unchanged; other
   * non-id values are the formatted text unchanged.
   */
  lemma FormattedValue(env: Env, data: StoredRecord, field: FieldDef, isView: bool)
    requires field.displayType != PickList && field.displayType != Classification
    requires field.name in data && !data[field.name].StoredId?
    ensures var text := env.formatValue(data[field.name], field);
            var r := WrapFieldValue(env, data, field, isView);
            && r.Done? && r.value.Some? && r.value.value.JStr?
            && (StripsSeparators(field.displayType, isView) ==>
                  r.value.value.s == RemoveChar(text, ',')
                  && ',' !in r.value.value.s && (forall c :: c != ',' ==> (c in r.value.value.s <==> c in text))
                  && (',' !in text ==> r.value.value.s == text))
            && (!StripsSeparators(field.displayType, isView) ==> r.value.value.s == text)
  {
    var text := env.formatValue(data[field.name], field);
    if ',' !in text {
      RemoveCharAbsent(text, ',');
    }
  }

  /** In edit mode a yes/no value becomes "T" exactly when it is the text for yes, and "F" otherwise. */
  function BoolForEdit(value: Json): (r: Json)
    ensures r == JStr("T") || r == JStr("F")
    ensures r == JStr("T") <==> value == JStr(BoolYes)
  {
    if value == JStr(BoolYes) then JStr("T") else JStr("F")
  }

  /** The value the builder stores for a loaded record: the wrapped value, with yes/no mapped in edit mode. */
  function EditedValue(dt: DisplayType, isView: bool, value: Json): Json {
    if dt == Bool && !isView then BoolForEdit(value) else value
  }
}
