/**
 * `FormsBuilder.buildModel`: the form or view model of an entity for a
 * user, built from the stored layout, with the pending master id of a new
 * slave record held in one slot of the builder.
 */
module FormsModel {
  import opened Wrappers
  import opened Text
  import opened JsonValues
  import opened FormsMeta
  import opened FormsValues
  import opened FormsQuery

  /** What the walk over the layout does with one element. */
  datatype Step = Dropped | Kept(element: JsonObject)

  /** An element and the length of its date format (-1 when the field is no date). */
  datatype Typed = Typed(element: JsonObject, dateLength: int)

  /** `$DIVIDER$` in any letter case. */
  predicate IsDivider(name: string) {
    EqualsIgnoreCase(name, DividerLine)
  }

  function ObjectsAsJson(items: seq<JsonObject>): (r: seq<Json>)
    ensures |r| == |items| && forall i :: 0 <= i < |items| ==> r[i] == JObj(items[i])
  {
    seq(|items|, i requires 0 <= i < |items| => JObj(items[i]))
  }

  function PutIfSome(m: JsonObject, key: string, v: Option<Json>): JsonObject {
    if v.Some? then m[key := v.value] else m
  }

  // ---- one element ---------------------------------------------------------------

  /** Label, type and nullability of the field, and readonly when a loaded record's field cannot be updated. */
  function WithBaseAttributes(el: JsonObject, field: FieldDef, loaded: bool): JsonObject {
    el["label" := JStr(field.displayLabel)]
      ["type" := JStr(DisplayTypeName(field.displayType))]
      ["nullable" := JBool(field.nullable)]
      ["readonly" := JBool(loaded && !field.updatable)]
  }

  /** The element's date format (the default when it has none) and that format's length. */
  function WithFormat(env: Env, el: JsonObject, key: string, default: string): Outcome<Typed> {
    var withKey := if key in el then el else el[key := JStr(default)];
    match StringOf(env, withKey, key)
    case None => Aborted(NullValue)
    case Some(format) => Done(Typed(withKey, |format|))
  }

  /** The attributes particular to the display type: options, date format, open level. */
  function WithTypeAttributes(env: Env, el: JsonObject, field: FieldDef): Outcome<Typed> {
    match field.displayType
    case PickList => Done(Typed(el["options" := JArr(ObjectsAsJson(env.pickList(field)))], -1))
    case DateTime => WithFormat(env, el, "datetimeFormat", DefaultDateTimeFormat)
    case Date => WithFormat(env, el, "dateFormat", DefaultDateFormat)
    case Classification => Done(Typed(el["openLevel" := JInt(env.openLevel(field))], -1))
    case _ => Done(Typed(el, -1))
  }

  /** The value of a loaded record's field, when it has one. */
  function WithLoadedValue(env: Env, el: JsonObject, field: FieldDef, data: StoredRecord, isView: bool): Outcome<JsonObject> {
    match WrapFieldValue(env, data, field, isView)
    case Aborted(f) => Aborted(f)
    case Done(None) => Done(el)
    case Done(Some(v)) => Done(el["value" := EditedValue(field.displayType, isView, v)])
  }

  /** The value a system field gets when it cannot be set on creation. */
  function SystemValue(name: string, user: UserInfo, now: string): Outcome<Option<Json>> {
    if name == CreatedOn || name == ModifiedOn then Done(Some(JStr(now)))
    else if name == CreatedBy || name == ModifiedBy || name == OwningUser then
      Done(Some(JArr([JStr(user.id.literal), JStr(user.fullName), JStr("User")])))
    else if name == OwningDept then
      match user.owningDept
      case None => Aborted(NullValue)
      case Some(d) => Done(Some(JArr([JStr(d.identity), JStr(d.name), JStr("Department")])))
    else Done(None)
  }

  predicate IsDefaultOption(item: JsonObject) {
    "default" in item && item["default"] == JBool(true)
  }

  /** The index of the first option flagged as default. */
  function FirstDefault(options: seq<JsonObject>): (r: Option<nat>)
    ensures r.Some? ==> r.value < |options| && IsDefaultOption(options[r.value])
                        && forall j :: 0 <= j < r.value ==> !IsDefaultOption(options[j])
    ensures r.None? ==> forall j :: 0 <= j < |options| ==> !IsDefaultOption(options[j])
  {
    if |options| == 0 then None
    else if IsDefaultOption(options[0]) then Some(0)
    else match FirstDefault(options[1..])
      case None => None
      case Some(k) => Some(k + 1)
  }

  /** `item.getString("id")` as the value put into the element. */
  function OptionId(env: Env, item: JsonObject): Json {
    match StringOf(env, item, "id")
    case None => JNull
    case Some(s) => JStr(s)
  }

  /** The expression default, cut to the length of the date format when there is one. */
  function DefaultValue(dv: string, dateLength: int): Outcome<Json> {
    if dateLength > -1 then
      if dateLength > |dv| then Aborted(IndexOutOfRange) else Done(JStr(dv[..dateLength]))
    else Done(JStr(dv))
  }

  /** The values of a new record's element: system fields, then the default option, placeholder or expression default. */
  function WithCreateValues(env: Env, el: JsonObject, field: FieldDef, name: string, user: UserInfo, now: string, dateLength: int)
    : Outcome<JsonObject>
  {
    var fixed :=
      if field.creatable then Done(el)
      else match SystemValue(name, user, now)
        case Aborted(f) => Aborted(f)
        case Done(v) => Done(PutIfSome(el["readonly" := JBool(true)], "value", v));
    match fixed
    case Aborted(f) => Aborted(f)
    case Done(el1) =>
      match field.displayType
      case PickList =>
        var options := env.pickList(field);
        (match FirstDefault(options)
         case None => Done(el1)
         case Some(k) => Done(el1["value" := OptionId(env, options[k])]))
      case Series => Done(el1["value" := JStr(SeriesPlaceholder)])
      case _ =>
        (match env.exprDefault(field)
         case None => Done(el1)
         case Some(dv) =>
           (match DefaultValue(dv, dateLength)
            case Aborted(f) => Aborted(f)
            case Done(v) => Done(el1["value" := v])))
  }

  /**
   * One element of the walk: a divider is kept as it is in a view and
   * dropped from a form, an unknown field is dropped, and a field of the
   * entity is filled in.
   */
  function ResolveStep(env: Env, entity: EntityDef, el: JsonObject, data: Option<StoredRecord>, isView: bool,
                       user: UserInfo, now: string): Outcome<Step>
  {
    match StringOf(env, el, "field")
    case None => Aborted(NullValue)
    case Some(name) =>
      if IsDivider(name) then Done(if isView then Kept(el) else Dropped)
      else if name !in entity.fields then Done(Dropped)
      else
        var field := entity.fields[name];
        var merged := WithBaseAttributes(el, field, data.Some?) + field.extConfig;
        match WithTypeAttributes(env, merged, field)
        case Aborted(f) => Aborted(f)
        case Done(typed) =>
          var filled :=
            if data.Some? then WithLoadedValue(env, typed.element, field, data.value, isView)
            else WithCreateValues(env, typed.element, field, name, user, now, typed.dateLength);
          match filled
          case Aborted(f) => Aborted(f)
          case Done(out) => Done(Kept(out))
  }

  // ---- the walk ------------------------------------------------------------------

  /** The elements that survive the walk, in layout order, or the first fault. */
  function ResolveAll(env: Env, entity: EntityDef, elements: seq<JsonObject>, data: Option<StoredRecord>, isView: bool,
                      user: UserInfo, now: string): Outcome<seq<JsonObject>>
  {
    if |elements| == 0 then Done([])
    else
      match ResolveAll(env, entity, elements[..|elements| - 1], data, isView, user, now)
      case Aborted(f) => Aborted(f)
      case Done(kept) =>
        match ResolveStep(env, entity, elements[|elements| - 1], data, isView, user, now)
        case Aborted(f) => Aborted(f)
        case Done(Dropped) => Done(kept)
        case Done(Kept(out)) => Done(kept + [out])
  }

  /** The positions in the layout of the elements that survive. */
  function KeptIndices(env: Env, entity: EntityDef, elements: seq<JsonObject>, data: Option<StoredRecord>, isView: bool,
                       user: UserInfo, now: string): seq<nat>
  {
    if |elements| == 0 then []
    else
      var n := |elements| - 1;
      KeptIndices(env, entity, elements[..n], data, isView, user, now)
        + (if ResolveStep(env, entity, elements[n], data, isView, user, now).Done?
              && ResolveStep(env, entity, elements[n], data, isView, user, now).value.Kept? then [n] else [])
  }

  // ---- the whole model -----------------------------------------------------------

  /** The permission check by mode: the denial message, or nothing when allowed. */
  function GateCheck(env: Env, entity: EntityDef, user: RecId, record: Option<RecId>, isView: bool, slot: Option<RecId>)
    : Outcome<Option<string>>
  {
    if record.None? then
      if entity.master.Some? then
        match slot
        case None => Aborted(MasterIdUnset)
        case Some(masterId) => Done(if env.allowedU(user, masterId) then None else Some(NoSlavePermission))
      else Done(if env.allowedC(user, entity.code) then None else Some(NoCreatePermission))
    else if isView then Done(if env.allowedR(user, record.value) then None else Some(NoReadPermission))
    else Done(if env.allowedU(user, record.value) then None else Some(NoEditPermission))
  }

  /** `lastModified`: the loaded record's modification time, when it has one. */
  function LastModified(data: Option<StoredRecord>): Outcome<Option<Json>> {
    if data.Some? && ModifiedOn in data.value then
      match data.value[ModifiedOn]
      case StoredDate(ms) => Done(Some(JInt(ms)))
      case _ => Aborted(BadCast)
    else Done(None)
  }

  /** The model: the layout's config with the surviving elements, the master/slave flags, `lastModified` and a null id. */
  function Finish(env: Env, entity: EntityDef, config: JsonObject, kept: seq<JsonObject>, data: Option<StoredRecord>)
    : Outcome<JsonObject>
  {
    var m0 := config["elements" := JArr(ObjectsAsJson(kept))];
    var m1 :=
      if entity.master.Some? then m0["isSlave" := JBool(true)]
      else if entity.slave.Some? then m0["isMaster" := JBool(true)]["slaveMeta" := env.entityShow(entity.slave.value)]
      else m0;
    match LastModified(data)
    case Aborted(f) => Aborted(f)
    case Done(lm) => Done(PutIfSome(m1, "lastModified", lm)["id" := JNull])
  }

  /**
   * Everything after the layout check: the record, fetched as the caller,
   * the walk, the empty check and the final fields.
   */
  function FromLayout(env: Env, entity: EntityDef, caller: RecId, user: UserInfo, config: JsonObject, elements: seq<JsonObject>,
                      record: Option<RecId>, isView: bool, now: string): Outcome<JsonObject>
  {
    var lookup := if record.None? then Done(None) else RecordLookup(env, record.value, caller, elements);
    match lookup
    case Aborted(f) => Aborted(f)
    case Done(data) =>
      if record.Some? && data.None? then Done(FormatModelError(RecordUnavailable))
      else
        match ResolveAll(env, entity, elements, data, isView, user, now)
        case Aborted(f) => Aborted(f)
        case Done(kept) =>
          if |kept| == 0 then Done(FormatModelError(LayoutNotConfigured))
          else Finish(env, entity, config, kept, data)
  }

  /** `buildModel`, given the pending master id. */
  function BuildSpec(env: Env, entityName: string, user: RecId, record: Option<RecId>, isView: bool, now: string,
                     slot: Option<RecId>): Outcome<JsonObject>
  {
    match env.entityByName(entityName)
    case None => Aborted(UnknownEntity)
    case Some(entity) =>
      match env.userById(user)
      case None => Aborted(UnknownUser)
      case Some(u) =>
        match GateCheck(env, entity, user, record, isView, slot)
        case Aborted(f) => Aborted(f)
        case Done(Some(denied)) => Done(FormatModelError(denied))
        case Done(None) =>
          var layout := env.formLayout(entityName, user);
          if layout.elements.None? || |layout.elements.value| == 0 then Done(FormatModelError(LayoutNotConfigured))
          else FromLayout(env, entity, user, u, layout.config, layout.elements.value, record, isView, now)
  }

  /** The pending master id after `buildModel`: taken by the creation of a slave record, kept otherwise. */
  function SlotAfter(env: Env, entityName: string, user: RecId, record: Option<RecId>, slot: Option<RecId>): Option<RecId> {
    if env.entityByName(entityName).Some? && env.userById(user).Some? && record.None?
       && env.entityByName(entityName).value.master.Some?
    then None
    else slot
  }

  // ---- the imperative builder ----------------------------------------------------

  /** Puts every entry of the field's extension config into the element, overwriting what is there. */
  method MergeExtConfig(el: JsonObject, ext: JsonObject) returns (out: JsonObject)
    ensures out == el + ext
  {
    RestrictedEnds(el, ext);
    out := el;
    var rest := ext.Keys;
    ghost var done: set<string> := {};
    while rest != {}
      invariant rest !! done && rest + done == ext.Keys
      invariant out == el + Restrict(ext, done)
      decreases |rest|
    {
      var k :| k in rest;
      RestrictStep(el, ext, done, k);
      out := out[k := ext[k]];
      rest := rest - {k};
      done := done + {k};
    }
  }

  /** The entries of `m` whose keys are in `ks`. */
  function Restrict(m: JsonObject, ks: set<string>): JsonObject {
    map k | k in ks && k in m :: m[k]
  }

  lemma RestrictStep(el: JsonObject, ext: JsonObject, done: set<string>, k: string)
    requires k in ext
    ensures (el + Restrict(ext, done))[k := ext[k]] == el + Restrict(ext, done + {k})
  {
    var a := (el + Restrict(ext, done))[k := ext[k]];
    var b := el + Restrict(ext, done + {k});
    assert a.Keys == b.Keys;
    forall j | j in a ensures a[j] == b[j] {}
  }

  lemma RestrictedEnds(el: JsonObject, ext: JsonObject)
    ensures el + Restrict(ext, {}) == el && el + Restrict(ext, ext.Keys) == el + ext
  {
    assert Restrict(ext, {}) == map[];
    assert Restrict(ext, ext.Keys) == ext;
  }

  /** The overlay leaves every key of the element, adds those of the extension config, and the config wins. */
  lemma OverlayWins(el: JsonObject, ext: JsonObject)
    ensures (el + ext).Keys == el.Keys + ext.Keys
    ensures forall k :: k in ext ==> (el + ext)[k] == ext[k]
    ensures forall k :: k in el && k !in ext ==> (el + ext)[k] == el[k]
  {
  }

  /** The loop of the create branch over the pick-list options: the first one flagged as default. */
  method FindDefaultOption(options: seq<JsonObject>) returns (r: Option<nat>)
    ensures r == FirstDefault(options)
  {
    var i := 0;
    while i < |options|
      invariant 0 <= i <= |options|
      invariant forall j :: 0 <= j < i ==> !IsDefaultOption(options[j])
    {
      if IsDefaultOption(options[i]) {
        FirstDefaultIsFirst(options, i);
        return Some(i);
      }
      i := i + 1;
    }
    FirstDefaultIsFirst(options, |options|);
    return None;
  }

  lemma FirstDefaultIsFirst(options: seq<JsonObject>, i: nat)
    requires i <= |options| && forall j :: 0 <= j < i ==> !IsDefaultOption(options[j])
    ensures i < |options| && IsDefaultOption(options[i]) ==> FirstDefault(options) == Some(i)
    ensures i == |options| ==> FirstDefault(options) == None
  {
  }

  /** The type-specific attributes of the loop body. */
  method ApplyTypeAttributes(env: Env, el: JsonObject, field: FieldDef) returns (r: Outcome<Typed>)
    ensures r == WithTypeAttributes(env, el, field)
  {
    var dateLength := -1;
    var out := el;
    if field.displayType == PickList {
      out := out["options" := JArr(ObjectsAsJson(env.pickList(field)))];
    } else if field.displayType == DateTime || field.displayType == Date {
      var key := if field.displayType == DateTime then "datetimeFormat" else "dateFormat";
      if key !in out {
        out := out[key := JStr(if field.displayType == DateTime then DefaultDateTimeFormat else DefaultDateFormat)];
      }
      var format := StringOf(env, out, key);
      if format.None? {
        return Aborted(NullValue);
      }
      dateLength := |format.value|;
    } else if field.displayType == Classification {
      out := out["openLevel" := JInt(env.openLevel(field))];
    }
    r := Done(Typed(out, dateLength));
  }

  /** The create branch of the loop body. */
  method ApplyCreateValues(env: Env, el: JsonObject, field: FieldDef, name: string, user: UserInfo, now: string, dateLength: int)
    returns (r: Outcome<JsonObject>)
    ensures r == WithCreateValues(env, el, field, name, user, now, dateLength)
  {
    var out := el;
    if !field.creatable {
      out := out["readonly" := JBool(true)];
      if name == CreatedOn || name == ModifiedOn {
        out := out["value" := JStr(now)];
      } else if name == CreatedBy || name == ModifiedBy || name == OwningUser {
        out := out["value" := JArr([JStr(user.id.literal), JStr(user.fullName), JStr("User")])];
      } else if name == OwningDept {
        if user.owningDept.None? {
          return Aborted(NullValue);
        }
        var dept := user.owningDept.value;
        out := out["value" := JArr([JStr(dept.identity), JStr(dept.name), JStr("Department")])];
      }
    }
    if field.displayType == PickList {
      var options := env.pickList(field);
      var found := FindDefaultOption(options);
      if found.Some? {
        out := out["value" := OptionId(env, options[found.value])];
      }
    } else if field.displayType == Series {
      out := out["value" := JStr(SeriesPlaceholder)];
    } else {
      var dv := env.exprDefault(field);
      if dv.Some? {
        var text := dv.value;
        if dateLength > -1 {
          if dateLength > |text| {
            return Aborted(IndexOutOfRange);
          }
          text := text[..dateLength];
        }
        out := out["value" := JStr(text)];
      }
    }
    r := Done(out);
  }

  /** The body of the loop over the layout for one element. */
  method ResolveElement(env: Env, entity: EntityDef, el: JsonObject, data: Option<StoredRecord>, isView: bool,
                        user: UserInfo, now: string) returns (r: Outcome<Step>)
    ensures r == ResolveStep(env, entity, el, data, isView, user, now)
  {
    var fieldName := StringOf(env, el, "field");
    if fieldName.None? {
      return Aborted(NullValue);
    }
    var name := fieldName.value;
    if IsDivider(name) {
      return Done(if isView then Kept(el) else Dropped);
    }
    if name !in entity.fields {
      return Done(Dropped);
    }
    var field := entity.fields[name];
    var out := el["label" := JStr(field.displayLabel)];
    out := out["type" := JStr(DisplayTypeName(field.displayType))];
    out := out["nullable" := JBool(field.nullable)];
    out := out["readonly" := JBool(false)];
    if data.Some? && !field.updatable {
      out := out["readonly" := JBool(true)];
    }
    assert out == WithBaseAttributes(el, field, data.Some?);
    out := MergeExtConfig(out, field.extConfig);
    assert out == WithBaseAttributes(el, field, data.Some?) + field.extConfig;
    var typed := ApplyTypeAttributes(env, out, field);
    if typed.Aborted? {
      return Aborted(typed.fault);
    }
    out := typed.value.element;
    if data.Some? {
      var value := WrapFieldValue(env, data.value, field, isView);
      if value.Aborted? {
        return Aborted(value.fault);
      }
      if value.value.Some? {
        var v := value.value.value;
        if field.displayType == Bool && !isView {
          v := if v == JStr(BoolYes) then JStr("T") else JStr("F");
        }
        out := out["value" := v];
      }
      r := Done(Kept(out));
    } else {
      var filled := ApplyCreateValues(env, out, field, name, user, now, typed.value.dateLength);
      if filled.Aborted? {
        return Aborted(filled.fault);
      }
      r := Done(Kept(filled.value));
    }
  }

  lemma ResolveAllStep(env: Env, entity: EntityDef, elements: seq<JsonObject>, i: nat, data: Option<StoredRecord>,
                       isView: bool, user: UserInfo, now: string)
    requires i < |elements|
    ensures ResolveAll(env, entity, elements[..i + 1], data, isView, user, now)
            == match ResolveAll(env, entity, elements[..i], data, isView, user, now)
               case Aborted(f) => Aborted(f)
               case Done(kept) =>
                 match ResolveStep(env, entity, elements[i], data, isView, user, now)
                 case Aborted(f) => Aborted(f)
                 case Done(Dropped) => Done(kept)
                 case Done(Kept(out)) => Done(kept + [out])
  {
    assert elements[..i + 1][..i] == elements[..i];
  }

  lemma {:induction false} ResolveAbortStays(env: Env, entity: EntityDef, elements: seq<JsonObject>, n: nat,
                                            data: Option<StoredRecord>, isView: bool, user: UserInfo, now: string)
    requires n <= |elements| && ResolveAll(env, entity, elements[..n], data, isView, user, now).Aborted?
    ensures ResolveAll(env, entity, elements, data, isView, user, now)
            == ResolveAll(env, entity, elements[..n], data, isView, user, now)
    decreases |elements| - n
  {
    if n < |elements| {
      ResolveAllStep(env, entity, elements, n, data, isView, user, now);
      ResolveAbortStays(env, entity, elements, n + 1, data, isView, user, now);
    } else {
      assert elements[..n] == elements;
    }
  }

  /** The loop over the layout (`iter.remove()` drops an element). */
  method ResolveElements(env: Env, entity: EntityDef, elements: seq<JsonObject>, data: Option<StoredRecord>, isView: bool,
                         user: UserInfo, now: string) returns (r: Outcome<seq<JsonObject>>)
    ensures r == ResolveAll(env, entity, elements, data, isView, user, now)
  {
    var kept: seq<JsonObject> := [];
    var i := 0;
    while i < |elements|
      invariant 0 <= i <= |elements|
      invariant ResolveAll(env, entity, elements[..i], data, isView, user, now) == Done(kept)
    {
      var step := ResolveElement(env, entity, elements[i], data, isView, user, now);
      ResolveAllStep(env, entity, elements, i, data, isView, user, now);
      if step.Aborted? {
        ResolveAbortStays(env, entity, elements, i + 1, data, isView, user, now);
        return Aborted(step.fault);
      }
      if step.value.Kept? {
        kept := kept + [step.value.element];
      }
      i := i + 1;
    }
    assert elements[..|elements|] == elements;
    r := Done(kept);
  }

  class FormsBuilder {
    /** `MASTERID4NEWSLAVE`: the master record a new slave record will belong to. */
    var masterIdForNewSlave: Option<RecId>

    constructor ()
      ensures masterIdForNewSlave.None?
    {
      masterIdForNewSlave := None;
    }

    /** `setCurrentMasterId`. */
    method SetCurrentMasterId(masterId: Option<RecId>)
      modifies this
      ensures masterIdForNewSlave == masterId
    {
      masterIdForNewSlave := masterId;
    }

    /** `buildModel`: the error object or the model, consuming the pending master id when creating a slave record. */
    method BuildModel(env: Env, entity: string, user: RecId, record: Option<RecId>, isView: bool, now: string)
      returns (r: Outcome<JsonObject>)
      modifies this
      ensures r == BuildSpec(env, entity, user, record, isView, now, old(masterIdForNewSlave))
      ensures masterIdForNewSlave == SlotAfter(env, entity, user, record, old(masterIdForNewSlave))
    {
      var entityMeta := env.entityByName(entity);
      if entityMeta.None? {
        return Aborted(UnknownEntity);
      }
      var currentUser := env.userById(user);
      if currentUser.None? {
        return Aborted(UnknownUser);
      }
      var meta := entityMeta.value;
      ghost var slot := masterIdForNewSlave;
      if record.None? {
        if meta.master.Some? {
          var masterId := masterIdForNewSlave;
          if masterId.None? {
            return Aborted(MasterIdUnset);
          }
          masterIdForNewSlave := None;
          if !env.allowedU(user, masterId.value) {
            return Done(FormatModelError(NoSlavePermission));
          }
        } else if !env.allowedC(user, meta.code) {
          return Done(FormatModelError(NoCreatePermission));
        }
      } else if isView {
        if !env.allowedR(user, record.value) {
          return Done(FormatModelError(NoReadPermission));
        }
      } else if !env.allowedU(user, record.value) {
        return Done(FormatModelError(NoEditPermission));
      }
      assert GateCheck(env, meta, user, record, isView, slot) == Done(None);

      var model := env.formLayout(entity, user);
      if model.elements.None? || |model.elements.value| == 0 {
        return Done(FormatModelError(LayoutNotConfigured));
      }
      var elements := model.elements.value;
      r := BuildFromLayout(env, meta, user, currentUser.value, model.config, elements, record, isView, now);
    }

    /** The part of `buildModel` after the layout check. */
    method BuildFromLayout(env: Env, meta: EntityDef, caller: RecId, user: UserInfo, config: JsonObject, elements: seq<JsonObject>,
                           record: Option<RecId>, isView: bool, now: string) returns (r: Outcome<JsonObject>)
      ensures r == FromLayout(env, meta, caller, user, config, elements, record, isView, now)
    {
      var data: Option<StoredRecord> := None;
      if record.Some? {
        var found := FindRecord(env, record.value, caller, elements);
        if found.Aborted? {
          return Aborted(found.fault);
        }
        if found.value.None? {
          return Done(FormatModelError(RecordUnavailable));
        }
        data := found.value;
      }
      var kept := ResolveElements(env, meta, elements, data, isView, user, now);
      if kept.Aborted? {
        return Aborted(kept.fault);
      }
      if |kept.value| == 0 {
        return Done(FormatModelError(LayoutNotConfigured));
      }
      var m := config["elements" := JArr(ObjectsAsJson(kept.value))];
      if meta.master.Some? {
        m := m["isSlave" := JBool(true)];
      } else if meta.slave.Some? {
        m := m["isMaster" := JBool(true)];
        m := m["slaveMeta" := env.entityShow(meta.slave.value)];
      }
      if data.Some? && ModifiedOn in data.value {
        var modified := data.value[ModifiedOn];
        if !modified.StoredDate? {
          return Aborted(BadCast);
        }
        m := m["lastModified" := JInt(modified.millis)];
      }
      m := m["id" := JNull];
      r := Done(m);
    }
  }
}
