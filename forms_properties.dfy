/** What `buildModel` promises, stated over its specification in `FormsModel`. */
module FormsProperties {
  import opened Wrappers
  import opened Text
  import opened JsonValues
  import opened FormsMeta
  import opened FormsValues
  import opened FormsQuery
  import opened FormsModel

  // ---- the permission gate and the early errors ----------------------------------

  /**
   * The permission consulted depends on the mode: update permission on the
   * pending master for a new slave record (which must have been set), create
   * permission on the entity for any other new record, read permission for a
   * view and update permission for an edit. A denial is an object holding
   * only the error message.
   */
  lemma PermissionGateByMode(env: Env, entityName: string, user: RecId, record: Option<RecId>, isView: bool,
                             now: string, slot: Option<RecId>)
    requires env.entityByName(entityName).Some? && env.userById(user).Some?
    ensures var entity := env.entityByName(entityName).value;
            var r := BuildSpec(env, entityName, user, record, isView, now, slot);
            && (record.None? && entity.master.Some? && slot.None? ==> r == Aborted(MasterIdUnset))
            && (record.None? && entity.master.Some? && slot.Some? && !env.allowedU(user, slot.value) ==>
                  r == Done(FormatModelError(NoSlavePermission)))
            && (record.None? && entity.master.None? && !env.allowedC(user, entity.code) ==>
                  r == Done(FormatModelError(NoCreatePermission)))
            && (record.Some? && isView && !env.allowedR(user, record.value) ==> r == Done(FormatModelError(NoReadPermission)))
            && (record.Some? && !isView && !env.allowedU(user, record.value) ==> r == Done(FormatModelError(NoEditPermission)))
    ensures GateCheck(env, env.entityByName(entityName).value, user, record, isView, slot).Done?
            && GateCheck(env, env.entityByName(entityName).value, user, record, isView, slot).value.Some? ==>
              BuildSpec(env, entityName, user, record, isView, now, slot).Done?
              && BuildSpec(env, entityName, user, record, isView, now, slot).value.Keys == {"error"}
  {
  }

  /**
   * Creating a slave record consumes the pending master id, so a second
   * creation without a new `setCurrentMasterId` fails on the missing id.
   */
  lemma SlaveCreationConsumesMasterId(env: Env, entityName: string, user: RecId, now: string, slot: Option<RecId>)
    requires env.entityByName(entityName).Some? && env.userById(user).Some?
    requires env.entityByName(entityName).value.master.Some?
    ensures SlotAfter(env, entityName, user, None, slot) == None
    ensures BuildSpec(env, entityName, user, None, false, now, SlotAfter(env, entityName, user, None, slot)) == Aborted(MasterIdUnset)
  {
  }

  /** Any other call leaves the pending master id where it was. */
  lemma OtherCallsKeepMasterId(env: Env, entityName: string, user: RecId, record: Option<RecId>, slot: Option<RecId>)
    requires record.Some? || env.entityByName(entityName).None? || env.entityByName(entityName).value.master.None?
    ensures SlotAfter(env, entityName, user, record, slot) == slot
  {
  }

  /** A layout without elements, or with an empty element list, is "not configured". */
  lemma MissingLayoutIsNotConfigured(env: Env, entityName: string, user: RecId, record: Option<RecId>, isView: bool,
                                     now: string, slot: Option<RecId>)
    requires env.entityByName(entityName).Some? && env.userById(user).Some?
    requires GateCheck(env, env.entityByName(entityName).value, user, record, isView, slot) == Done(None)
    requires env.formLayout(entityName, user).elements.None? || env.formLayout(entityName, user).elements.value == []
    ensures BuildSpec(env, entityName, user, record, isView, now, slot) == Done(FormatModelError(LayoutNotConfigured))
  {
  }

  /** When the record cannot be fetched the result is "record unavailable", with no elements. */
  lemma MissingRecordIsUnavailable(env: Env, entity: EntityDef, caller: RecId, user: UserInfo, config: JsonObject, elements: seq<JsonObject>,
                                   id: RecId, isView: bool, now: string)
    requires RecordLookup(env, id, caller, elements) == Done(None)
    ensures FromLayout(env, entity, caller, user, config, elements, Some(id), isView, now) == Done(FormatModelError(RecordUnavailable))
    ensures "elements" !in FormatModelError(RecordUnavailable)
  {
  }

  /**
   * The record is fetched as the calling user, whatever the user store
   * returns for that id: when that fetch finds nothing, the result is
   * "record unavailable".
   */
  lemma RecordFetchedAsCaller(env: Env, entityName: string, user: RecId, id: RecId, isView: bool, now: string,
                              slot: Option<RecId>)
    requires env.entityByName(entityName).Some? && env.userById(user).Some?
    requires GateCheck(env, env.entityByName(entityName).value, user, Some(id), isView, slot) == Done(None)
    requires env.formLayout(entityName, user).elements.Some? && |env.formLayout(entityName, user).elements.value| > 0
    requires RecordLookup(env, id, user, env.formLayout(entityName, user).elements.value) == Done(None)
    ensures BuildSpec(env, entityName, user, Some(id), isView, now, slot) == Done(FormatModelError(RecordUnavailable))
  {
  }

  /** A layout whose every element is dropped is "not configured" too. */
  lemma EmptyAfterFilteringIsNotConfigured(env: Env, entity: EntityDef, caller: RecId, user: UserInfo, config: JsonObject,
                                           elements: seq<JsonObject>, record: Option<RecId>, isView: bool, now: string)
    requires record.None? ==> ResolveAll(env, entity, elements, None, isView, user, now) == Done([])
    requires record.Some? ==> RecordLookup(env, record.value, caller, elements).Done?
                              && RecordLookup(env, record.value, caller, elements).value.Some?
                              && ResolveAll(env, entity, elements, RecordLookup(env, record.value, caller, elements).value,
                                            isView, user, now) == Done([])
    ensures FromLayout(env, entity, caller, user, config, elements, record, isView, now) == Done(FormatModelError(LayoutNotConfigured))
  {
  }

  // ---- the walk over the layout ---------------------------------------------------

  /**
   * A divider is kept unchanged in a view and dropped from a form; an
   * element naming a field the entity lacks is dropped; nothing else is.
   */
  lemma DroppedElements(env: Env, entity: EntityDef, el: JsonObject, data: Option<StoredRecord>, isView: bool,
                        user: UserInfo, now: string, name: string)
    requires StringOf(env, el, "field") == Some(name)
    ensures ResolveStep(env, entity, el, data, isView, user, now) == Done(Dropped) <==>
              (IsDivider(name) && !isView) || (!IsDivider(name) && name !in entity.fields)
    ensures IsDivider(name) && isView ==> ResolveStep(env, entity, el, data, isView, user, now) == Done(Kept(el))
  {
  }

  /** An element without a field name aborts the walk. */
  lemma NamelessElementAborts(env: Env, entity: EntityDef, el: JsonObject, data: Option<StoredRecord>, isView: bool,
                              user: UserInfo, now: string)
    requires StringOf(env, el, "field").None?
    ensures ResolveStep(env, entity, el, data, isView, user, now) == Aborted(NullValue)
  {
  }

  lemma {:induction false} KeptIndicesBounded(env: Env, entity: EntityDef, elements: seq<JsonObject>, data: Option<StoredRecord>,
                                              isView: bool, user: UserInfo, now: string)
    ensures forall j :: 0 <= j < |KeptIndices(env, entity, elements, data, isView, user, now)| ==>
              KeptIndices(env, entity, elements, data, isView, user, now)[j] < |elements|
  {
    if |elements| > 0 {
      KeptIndicesBounded(env, entity, elements[..|elements| - 1], data, isView, user, now);
    }
  }

  /**
   * The output elements are an order-preserving subsequence of the layout:
   * the j-th output element is what the walk made of layout element
   * `KeptIndices[j]`, those positions increase, and every other layout
   * element was dropped.
   */
  lemma SurvivorsKeepLayoutOrder(env: Env, entity: EntityDef, elements: seq<JsonObject>,
                                 data: Option<StoredRecord>, isView: bool, user: UserInfo, now: string)
    requires ResolveAll(env, entity, elements, data, isView, user, now).Done?
    ensures var out := ResolveAll(env, entity, elements, data, isView, user, now).value;
            var idx := KeptIndices(env, entity, elements, data, isView, user, now);
            && |idx| == |out|
            && (forall j :: 0 <= j < |idx| ==>
                  idx[j] < |elements| && ResolveStep(env, entity, elements[idx[j]], data, isView, user, now) == Done(Kept(out[j])))
            && (forall j, k :: 0 <= j < k < |idx| ==> idx[j] < idx[k])
            && (forall i :: 0 <= i < |elements| && i !in idx ==>
                  ResolveStep(env, entity, elements[i], data, isView, user, now) == Done(Dropped))
  {
    KeptElementsMatch(env, entity, elements, data, isView, user, now);
    KeptIndicesIncrease(env, entity, elements, data, isView, user, now);
    OthersAreDropped(env, entity, elements, data, isView, user, now);
  }

  lemma {:induction false} KeptElementsMatch(env: Env, entity: EntityDef, elements: seq<JsonObject>,
                                             data: Option<StoredRecord>, isView: bool, user: UserInfo, now: string)
    requires ResolveAll(env, entity, elements, data, isView, user, now).Done?
    ensures var out := ResolveAll(env, entity, elements, data, isView, user, now).value;
            var idx := KeptIndices(env, entity, elements, data, isView, user, now);
            && |idx| == |out|
            && (forall j :: 0 <= j < |idx| ==>
                  idx[j] < |elements| && ResolveStep(env, entity, elements[idx[j]], data, isView, user, now) == Done(Kept(out[j])))
  {
    if |elements| > 0 {
      var n := |elements| - 1;
      var init := elements[..n];
      assert ResolveAll(env, entity, init, data, isView, user, now).Done?;
      KeptElementsMatch(env, entity, init, data, isView, user, now);
      var outI := ResolveAll(env, entity, init, data, isView, user, now).value;
      var idxI := KeptIndices(env, entity, init, data, isView, user, now);
      var step := ResolveStep(env, entity, elements[n], data, isView, user, now);
      var out := ResolveAll(env, entity, elements, data, isView, user, now).value;
      var idx := KeptIndices(env, entity, elements, data, isView, user, now);
      assert step.Done?;
      if step.value.Kept? {
        assert out == outI + [step.value.element];
        assert idx == idxI + [n];
      } else {
        assert out == outI;
        assert idx == idxI;
      }
      forall j | 0 <= j < |idxI|
        ensures elements[idxI[j]] == init[idxI[j]]
      {
      }
    }
  }

  lemma {:induction false} KeptIndicesIncrease(env: Env, entity: EntityDef, elements: seq<JsonObject>,
                                               data: Option<StoredRecord>, isView: bool, user: UserInfo, now: string)
    ensures forall j, k :: 0 <= j < k < |KeptIndices(env, entity, elements, data, isView, user, now)| ==>
              KeptIndices(env, entity, elements, data, isView, user, now)[j] < KeptIndices(env, entity, elements, data, isView, user, now)[k]
  {
    if |elements| > 0 {
      var n := |elements| - 1;
      var init := elements[..n];
      KeptIndicesIncrease(env, entity, init, data, isView, user, now);
      KeptIndicesBounded(env, entity, init, data, isView, user, now);
      var idxI := KeptIndices(env, entity, init, data, isView, user, now);
      var step := ResolveStep(env, entity, elements[n], data, isView, user, now);
      var idx := KeptIndices(env, entity, elements, data, isView, user, now);
      if step.Done? && step.value.Kept? {
        assert idx == idxI + [n];
        assert |init| == n;
      } else {
        assert idx == idxI;
      }
      forall j, k | 0 <= j < k < |idx|
        ensures idx[j] < idx[k]
      {
        if k < |idxI| {
          assert idx[j] == idxI[j] && idx[k] == idxI[k];
        }
      }
    }
  }

  lemma {:induction false} OthersAreDropped(env: Env, entity: EntityDef, elements: seq<JsonObject>,
                                            data: Option<StoredRecord>, isView: bool, user: UserInfo, now: string)
    requires ResolveAll(env, entity, elements, data, isView, user, now).Done?
    ensures var idx := KeptIndices(env, entity, elements, data, isView, user, now);
            forall i :: 0 <= i < |elements| && i !in idx ==>
              ResolveStep(env, entity, elements[i], data, isView, user, now) == Done(Dropped)
  {
    if |elements| > 0 {
      var n := |elements| - 1;
      var init := elements[..n];
      assert ResolveAll(env, entity, init, data, isView, user, now).Done?;
      OthersAreDropped(env, entity, init, data, isView, user, now);
      var idxI := KeptIndices(env, entity, init, data, isView, user, now);
      var idx := KeptIndices(env, entity, elements, data, isView, user, now);
      var step := ResolveStep(env, entity, elements[n], data, isView, user, now);
      assert step.Done?;
      assert idx == idxI + (if step.value.Kept? then [n] else []);
      forall i | 0 <= i < n && i !in idx
        ensures ResolveStep(env, entity, elements[i], data, isView, user, now) == Done(Dropped)
      {
        assert init[i] == elements[i];
        assert i !in idxI;
      }
    }
  }

  // ---- the attributes of a surviving field --------------------------------------

  /** The keys the type-specific step may add. */
  predicate IsTypeKey(k: string) {
    k == "options" || k == "datetimeFormat" || k == "dateFormat" || k == "openLevel"
  }

  lemma TypeAttributesKeep(env: Env, el: JsonObject, field: FieldDef)
    requires WithTypeAttributes(env, el, field).Done?
    ensures el.Keys <= WithTypeAttributes(env, el, field).value.element.Keys
    ensures forall k :: k in el && !IsTypeKey(k) ==> WithTypeAttributes(env, el, field).value.element[k] == el[k]
  {
  }

  lemma LoadedValueKeeps(env: Env, el: JsonObject, field: FieldDef, data: StoredRecord, isView: bool)
    requires WithLoadedValue(env, el, field, data, isView).Done?
    ensures el.Keys <= WithLoadedValue(env, el, field, data, isView).value.Keys
    ensures forall k :: k in el && k != "value" ==> WithLoadedValue(env, el, field, data, isView).value[k] == el[k]
  {
  }

  lemma CreateValuesKeep(env: Env, el: JsonObject, field: FieldDef, name: string, user: UserInfo, now: string, dateLength: int)
    requires WithCreateValues(env, el, field, name, user, now, dateLength).Done?
    ensures var out := WithCreateValues(env, el, field, name, user, now, dateLength).value;
            && el.Keys <= out.Keys
            && (forall k :: k in el && k != "value" && k != "readonly" ==> out[k] == el[k])
            && (field.creatable && "readonly" in el ==> out["readonly"] == el["readonly"])
            && (!field.creatable ==> out["readonly"] == JBool(true))
  {
  }

  /**
   * The readonly rule. Without an overlay entry for it, readonly holds exactly
   * for a loaded record's field that cannot be updated or a new record's field
   * that cannot be set on creation; an overlay entry wins, except that a new
   * record's field that cannot be set on creation is always readonly.
   */
  lemma ReadonlyRule(env: Env, entity: EntityDef, el: JsonObject, data: Option<StoredRecord>, isView: bool,
                     user: UserInfo, now: string, name: string)
    requires StringOf(env, el, "field") == Some(name) && !IsDivider(name) && name in entity.fields
    requires ResolveStep(env, entity, el, data, isView, user, now).Done?
    ensures ResolveStep(env, entity, el, data, isView, user, now).value.Kept?
    ensures var field := entity.fields[name];
            var ext := field.extConfig;
            var out := ResolveStep(env, entity, el, data, isView, user, now).value.element;
            && ("readonly" !in ext ==>
                  out["readonly"] == JBool((data.Some? && !field.updatable) || (data.None? && !field.creatable)))
            && ("readonly" in ext && (data.Some? || field.creatable) ==> out["readonly"] == ext["readonly"])
            && (data.None? && !field.creatable ==> out["readonly"] == JBool(true))
  {
    var field := entity.fields[name];
    var merged := WithBaseAttributes(el, field, data.Some?) + field.extConfig;
    TypeAttributesKeep(env, merged, field);
    var typed := WithTypeAttributes(env, merged, field).value;
    if data.Some? {
      LoadedValueKeeps(env, typed.element, field, data.value, isView);
    } else {
      CreateValuesKeep(env, typed.element, field, name, user, now, typed.dateLength);
    }
  }

  /** Label, type and nullability come from the field's metadata unless the overlay gives them. */
  lemma DescriptiveAttributes(env: Env, entity: EntityDef, el: JsonObject, data: Option<StoredRecord>, isView: bool,
                              user: UserInfo, now: string, name: string)
    requires StringOf(env, el, "field") == Some(name) && !IsDivider(name) && name in entity.fields
    requires ResolveStep(env, entity, el, data, isView, user, now).Done?
    ensures ResolveStep(env, entity, el, data, isView, user, now).value.Kept?
    ensures var field := entity.fields[name];
            var ext := field.extConfig;
            var out := ResolveStep(env, entity, el, data, isView, user, now).value.element;
            && out["label"] == (if "label" in ext then ext["label"] else JStr(field.displayLabel))
            && out["type"] == (if "type" in ext then ext["type"] else JStr(DisplayTypeName(field.displayType)))
            && out["nullable"] == (if "nullable" in ext then ext["nullable"] else JBool(field.nullable))
  {
    var field := entity.fields[name];
    var merged := WithBaseAttributes(el, field, data.Some?) + field.extConfig;
    TypeAttributesKeep(env, merged, field);
    var typed := WithTypeAttributes(env, merged, field).value;
    if data.Some? {
      LoadedValueKeeps(env, typed.element, field, data.value, isView);
    } else {
      CreateValuesKeep(env, typed.element, field, name, user, now, typed.dateLength);
    }
  }

  // ---- values ------------------------------------------------------------------

  /** The entry the element holds for `key` once the extension config is laid over it. */
  function Overlaid(el: JsonObject, ext: JsonObject, key: string): Option<Json> {
    if key in ext then Some(ext[key]) else if key in el then Some(el[key]) else None
  }

  /** The element's value, when it has one. */
  function ValueOf(out: JsonObject): Option<Json> {
    if "value" in out then Some(out["value"]) else None
  }

  /** The date format the element ends up with: its own or the overlay's, else the default. */
  function EffectiveFormat(env: Env, el: JsonObject, ext: JsonObject, key: string, default: string): Option<string> {
    match Overlaid(el, ext, key)
    case None => Some(default)
    case Some(v) => GetString(env, v)
  }

  /**
   * A new record's value before the default option, placeholder or
   * expression default: the system value of a field that cannot be set on
   * creation, else whatever the element and its overlay hold.
   */
  function ValueBeforeDefaults(el: JsonObject, field: FieldDef, name: string, user: UserInfo, now: string): Option<Json> {
    var sys := SystemValue(name, user, now);
    if !field.creatable && sys.Done? && sys.value.Some? then sys.value
    else Overlaid(el, field.extConfig, "value")
  }

  /**
   * For a loaded record the element's value is the wrapped field value (a
   * yes/no value as "T" or "F" in edit mode); without a stored value the
   * element keeps whatever value it had.
   */
  lemma LoadedValueRule(env: Env, entity: EntityDef, el: JsonObject, data: StoredRecord, isView: bool,
                        user: UserInfo, now: string, name: string)
    requires StringOf(env, el, "field") == Some(name) && !IsDivider(name) && name in entity.fields
    requires ResolveStep(env, entity, el, Some(data), isView, user, now).Done?
    ensures ResolveStep(env, entity, el, Some(data), isView, user, now).value.Kept?
    ensures var field := entity.fields[name];
            var out := ResolveStep(env, entity, el, Some(data), isView, user, now).value.element;
            var wrapped := WrapFieldValue(env, data, field, isView);
            && wrapped.Done?
            && (wrapped.value.Some? ==> out["value"] == EditedValue(field.displayType, isView, wrapped.value.value))
            && (wrapped.value.Some? && field.displayType == Bool && !isView ==>
                  (out["value"] == JStr("T") <==> wrapped.value.value == JStr(BoolYes))
                  && (out["value"] == JStr("T") || out["value"] == JStr("F")))
            && (wrapped.value.None? ==> ValueOf(out) == Overlaid(el, field.extConfig, "value"))
  {
    var field := entity.fields[name];
    var merged := WithBaseAttributes(el, field, true) + field.extConfig;
    TypeAttributesKeep(env, merged, field);
  }

  /**
   * A new record's pick-list field takes the id of the first default option,
   * and without one keeps the value it had (its system value when it cannot
   * be set on creation); a series field takes the placeholder text.
   */
  lemma CreatePickListAndSeries(env: Env, entity: EntityDef, el: JsonObject, isView: bool, user: UserInfo, now: string, name: string)
    requires StringOf(env, el, "field") == Some(name) && !IsDivider(name) && name in entity.fields
    requires ResolveStep(env, entity, el, None, isView, user, now).Done?
    ensures ResolveStep(env, entity, el, None, isView, user, now).value.Kept?
    ensures var field := entity.fields[name];
            var options := env.pickList(field);
            var out := ResolveStep(env, entity, el, None, isView, user, now).value.element;
            && (field.displayType == PickList && FirstDefault(options).Some? ==>
                  out["value"] == OptionId(env, options[FirstDefault(options).value]))
            && (field.displayType == PickList && FirstDefault(options).None? ==>
                  ValueOf(out) == ValueBeforeDefaults(el, field, name, user, now))
            && (field.displayType == Series ==> out["value"] == JStr(SeriesPlaceholder))
  {
    var field := entity.fields[name];
    var merged := WithBaseAttributes(el, field, false) + field.extConfig;
    TypeAttributesKeep(env, merged, field);
  }

  /**
   * A new record's field of any other type takes its expression default, cut
   * to the length of the date or datetime format the element ends up with;
   * that format is the element's or the overlay's, else "yyyy-MM-dd" (10
   * characters) or "yyyy-MM-dd HH:mm:ss" (19 characters). A default shorter
   * than the format aborts, and so does a format entry holding null.
   */
  lemma CreateExpressionDefault(env: Env, entity: EntityDef, el: JsonObject, isView: bool, user: UserInfo, now: string,
                                name: string, dv: string)
    requires StringOf(env, el, "field") == Some(name) && !IsDivider(name) && name in entity.fields
    requires entity.fields[name].displayType != PickList && entity.fields[name].displayType != Series
    requires env.exprDefault(entity.fields[name]) == Some(dv)
    requires entity.fields[name].creatable || SystemValue(name, user, now).Done?
    ensures var field := entity.fields[name];
            var r := ResolveStep(env, entity, el, None, isView, user, now);
            var isDate := field.displayType == Date || field.displayType == DateTime;
            var key := if field.displayType == Date then "dateFormat" else "datetimeFormat";
            var default := if field.displayType == Date then DefaultDateFormat else DefaultDateTimeFormat;
            var format := EffectiveFormat(env, el, field.extConfig, key, default);
            && (!isDate ==> r.Done? && r.value.Kept? && r.value.element["value"] == JStr(dv))
            && (isDate && format.None? ==> r == Aborted(NullValue))
            && (isDate && format.Some? && |format.value| <= |dv| ==>
                  r.Done? && r.value.Kept? && r.value.element["value"] == JStr(dv[..|format.value|]))
            && (isDate && format.Some? && |format.value| > |dv| ==> r == Aborted(IndexOutOfRange))
            && (isDate && Overlaid(el, field.extConfig, key).None? ==> format == Some(default))
    ensures |DefaultDateFormat| == 10 && |DefaultDateTimeFormat| == 19
  {
    var field := entity.fields[name];
    var merged := WithBaseAttributes(el, field, false) + field.extConfig;
    if field.displayType == Date {
      assert ("dateFormat" in merged) == Overlaid(el, field.extConfig, "dateFormat").Some?;
      assert "dateFormat" in merged ==> merged["dateFormat"] == Overlaid(el, field.extConfig, "dateFormat").value;
    } else if field.displayType == DateTime {
      assert ("datetimeFormat" in merged) == Overlaid(el, field.extConfig, "datetimeFormat").Some?;
      assert "datetimeFormat" in merged ==> merged["datetimeFormat"] == Overlaid(el, field.extConfig, "datetimeFormat").value;
    }
  }

  /**
   * Without a default option, placeholder or expression default, a new
   * record's field keeps the value it had, except that a field that cannot be
   * set on creation takes its system value: the current time for the
   * creation and modification times, the user's triple for the creator,
   * modifier and owner, and the department's triple for the owning
   * department, which aborts when the user has no department.
   */
  lemma CreateSystemValues(env: Env, entity: EntityDef, el: JsonObject, isView: bool, user: UserInfo, now: string, name: string)
    requires StringOf(env, el, "field") == Some(name) && !IsDivider(name) && name in entity.fields
    requires entity.fields[name].displayType != PickList && entity.fields[name].displayType != Series
    requires env.exprDefault(entity.fields[name]).None?
    requires var field := entity.fields[name];
             WithTypeAttributes(env, WithBaseAttributes(el, field, false) + field.extConfig, field).Done?
    ensures var field := entity.fields[name];
            var r := ResolveStep(env, entity, el, None, isView, user, now);
            && (field.creatable || SystemValue(name, user, now).Done? ==>
                  r.Done? && r.value.Kept? && ValueOf(r.value.element) == ValueBeforeDefaults(el, field, name, user, now))
            && (!field.creatable && (name == CreatedOn || name == ModifiedOn) ==>
                  r.Done? && r.value.Kept? && r.value.element["value"] == JStr(now))
            && (!field.creatable && (name == CreatedBy || name == ModifiedBy || name == OwningUser) ==>
                  r.Done? && r.value.Kept? && r.value.element["value"] == JArr([JStr(user.id.literal), JStr(user.fullName), JStr("User")]))
            && (!field.creatable && name == OwningDept && user.owningDept.Some? ==>
                  r.Done? && r.value.Kept? && r.value.element["value"] ==
                    JArr([JStr(user.owningDept.value.identity), JStr(user.owningDept.value.name), JStr("Department")]))
            && (!field.creatable && name == OwningDept && user.owningDept.None? ==> r == Aborted(NullValue))
  {
    var field := entity.fields[name];
    var merged := WithBaseAttributes(el, field, false) + field.extConfig;
    TypeAttributesKeep(env, merged, field);
  }

  // ---- the final fields ------------------------------------------------------------

  /**
   * The model holds the surviving elements and a null id; `isSlave` is set
   * for a slave entity, otherwise `isMaster` and `slaveMeta` for a master
   * entity, so the two flags never come from the same call; a flag not set
   * is only what the layout config held; `lastModified` is the loaded
   * record's modification time when it has one.
   */
  lemma FinalFields(env: Env, entity: EntityDef, config: JsonObject, kept: seq<JsonObject>, data: Option<StoredRecord>)
    requires Finish(env, entity, config, kept, data).Done?
    ensures var m := Finish(env, entity, config, kept, data).value;
            && m["id"] == JNull
            && m["elements"] == JArr(ObjectsAsJson(kept))
            && (entity.master.Some? ==> m["isSlave"] == JBool(true)
                                        && ("isMaster" in m <==> "isMaster" in config)
                                        && ("slaveMeta" in m <==> "slaveMeta" in config))
            && (entity.master.None? && entity.slave.None? ==>
                  ("isSlave" in m <==> "isSlave" in config) && ("isMaster" in m <==> "isMaster" in config)
                  && ("slaveMeta" in m <==> "slaveMeta" in config))
            && (entity.master.None? && entity.slave.Some? ==>
                  m["isMaster"] == JBool(true) && m["slaveMeta"] == env.entityShow(entity.slave.value)
                  && ("isSlave" in m <==> "isSlave" in config))
            && (data.Some? && ModifiedOn in data.value ==> m["lastModified"] == JInt(data.value[ModifiedOn].millis))
            && ((data.None? || ModifiedOn !in data.value) ==> ("lastModified" in m <==> "lastModified" in config))
  {
  }

  /** The final step fails only on a stored modification time that is not a date. */
  lemma FinalFieldsAbort(env: Env, entity: EntityDef, config: JsonObject, kept: seq<JsonObject>, data: Option<StoredRecord>)
    ensures Finish(env, entity, config, kept, data).Aborted? <==>
              data.Some? && ModifiedOn in data.value && !data.value[ModifiedOn].StoredDate?
  {
  }
}
