/**
 * What the form builder reads from the rest of the system: entity and field
 * metadata, stored records, the signed-in user, the stored form layout, and
 * the collaborators it calls (permissions, option lists, labels, default
 * values, the generic value formatter), gathered in one environment value.
 * Java exceptions that the builder lets escape are an explicit fault.
 */
module FormsMeta {
  import opened Wrappers
  import opened Text
  import opened JsonValues

  /** A record id: its literal text, the code of its entity, and the label it may carry. */
  datatype RecId = RecId(literal: string, entityCode: int, labelText: Option<string>)

  /** The display types the builder distinguishes; every other one is `Other`, named as the enum names it. */
  datatype DisplayType =
    | PlainText | Number | Decimal | Date | DateTime | PickList | Classification
    | Reference | Bool | Series | Other(name: string)

  /** `DisplayType.name()`. */
  function DisplayTypeName(dt: DisplayType): string {
    match dt
    case PlainText => "TEXT"
    case Number => "NUMBER"
    case Decimal => "DECIMAL"
    case Date => "DATE"
    case DateTime => "DATETIME"
    case PickList => "PICKLIST"
    case Classification => "CLASSIFICATION"
    case Reference => "REFERENCE"
    case Bool => "BOOL"
    case Series => "SERIES"
    case Other(name) => name
  }

  /** The storage type of a field: a reference to the entity with the given code, or anything else. */
  datatype FieldKind = ReferenceTo(targetCode: int) | Scalar

  /** A field's metadata as `Field` and `EasyMeta` give it, with its extension config. */
  datatype FieldDef = FieldDef(
    name: string,
    displayLabel: string,
    displayType: DisplayType,
    nullable: bool,
    creatable: bool,
    updatable: bool,
    kind: FieldKind,
    extConfig: JsonObject)

  /** An entity: its name, code, the master or slave entity it is tied to, its fields by name and its primary field. */
  datatype EntityDef = EntityDef(
    name: string,
    code: int,
    master: Option<string>,
    slave: Option<string>,
    fields: map<string, FieldDef>,
    primaryField: string)

  /** A stored field value: a record id, a date (milliseconds since the epoch) or any other value. */
  datatype Stored = StoredId(id: RecId) | StoredDate(millis: int) | StoredOther(payload: Json)

  /** A fetched record: the values it holds, by field name (`hasValue` is membership). */
  type StoredRecord = map<string, Stored>

  datatype Dept = Dept(identity: string, name: string)

  /** The signed-in user: id, full name and owning department, which may be missing. */
  datatype UserInfo = UserInfo(id: RecId, fullName: string, owningDept: Option<Dept>)

  /** The stored layout of a form: its config entry and the `elements` array, which may be missing. */
  datatype LayoutEntry = LayoutEntry(config: JsonObject, elements: Option<seq<JsonObject>>)

  /** The exceptions the builder does not catch. */
  datatype Fault =
    | UnknownEntity      // metadata lookup of an entity that does not exist
    | UnknownUser        // the user store has no such user
    | MasterIdUnset      // `Assert.notNull(masterId, ...)` when creating a slave record
    | NullValue          // a `NullPointerException`
    | BadCast            // a `ClassCastException`
    | IndexOutOfRange    // `substring` past the end of the text

  datatype Outcome<+T> = Done(value: T) | Aborted(fault: Fault)

  /** The collaborators of the builder, as functions of what they are asked. */
  datatype Env = Env(
    entityByName: string -> Option<EntityDef>,
    entityByCode: int -> Option<EntityDef>,
    userById: RecId -> Option<UserInfo>,
    allowedC: (RecId, int) -> bool,
    allowedR: (RecId, RecId) -> bool,
    allowedU: (RecId, RecId) -> bool,
    formLayout: (string, RecId) -> LayoutEntry,
    queryRecord: (string, RecId) -> Option<StoredRecord>,
    entityNameOf: RecId -> string,
    entityShow: string -> Json,
    pickList: FieldDef -> seq<JsonObject>,
    pickLabel: RecId -> Option<string>,
    classificationName: RecId -> Option<string>,
    openLevel: FieldDef -> int,
    exprDefault: FieldDef -> Option<string>,
    formatValue: (Stored, FieldDef) -> string,
    jsonText: Json -> string,
    missRefPlace: string,
    pickListCode: int,
    classificationDataCode: int)

  // ---- names and texts the builder uses ------------------------------------------

  const DividerLine: string := "$DIVIDER$"
  const CreatedOn: string := "createdOn"
  const ModifiedOn: string := "modifiedOn"
  const CreatedBy: string := "createdBy"
  const ModifiedBy: string := "modifiedBy"
  const OwningUser: string := "owningUser"
  const OwningDept: string := "owningDept"
  const DefaultDateFormat: string := "yyyy-MM-dd"
  const DefaultDateTimeFormat: string := "yyyy-MM-dd HH:mm:ss"
  const SeriesPlaceholder: string := "自动值 (保存后显示)"
  const BoolYes: string := "是"

  const NoSlavePermission: string := "你没有权限向此记录添加明细"
  const NoCreatePermission: string := "没有新建权限"
  const NoReadPermission: string := "你没有读取此记录的权限"
  const NoEditPermission: string := "你没有编辑此记录的权限"
  const LayoutNotConfigured: string := "此表单布局尚未配置，请配置后使用"
  const RecordUnavailable: string := "此记录已被删除，或你对此记录没有读取权限"

  /** fastjson's `getString` on a value: null stays null, everything else becomes its text. */
  function GetString(env: Env, v: Json): (r: Option<string>)
    ensures r.None? <==> v.JNull?
    ensures v.JStr? ==> r == Some(v.s)
  {
    match v
    case JNull => None
    case JStr(s) => Some(s)
    case JBool(b) => Some(if b then "true" else "false")
    case JInt(i) => Some(IntText(i))
    case _ => Some(env.jsonText(v))
  }

  /** `obj.getString(key)`: null when the key is missing or holds null. */
  function StringOf(env: Env, obj: JsonObject, key: string): (r: Option<string>)
    ensures r.None? <==> key !in obj || obj[key].JNull?
  {
    if key in obj then GetString(env, obj[key]) else None
  }

  /** `formatModelError`: an object whose only entry is the error message. */
  function FormatModelError(error: string): (r: JsonObject)
    ensures r.Keys == {"error"} && r["error"] == JStr(error)
  {
    map["error" := JStr(error)]
  }
}
