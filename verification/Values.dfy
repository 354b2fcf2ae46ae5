/** Submitted and stored values, attribute types, and the readers of an attribute's config. */
module Values {
  import opened Wrappers
  import opened Text

  /** A JavaScript number; rounding is not modelled. */
  datatype Number = NaN | PosInf | NegInf | Finite(r: real)

  /** What a request can carry for an attribute, and what a JSON column can hold. */
  datatype Value =
    | Undefined
    | Null
    | Bool(b: bool)
    | Num(n: Number)
    | Str(s: string)
    | Arr(items: seq<Value>)
    | Obj(fields: map<string, Value>)
    | DateObj(iso: IsoText)

  /** What `toISOString` answers: never the empty string. */
  type IsoText = s: string | s != "" witness "1970-01-01T00:00:00.000Z"

  datatype AttributeType =
    | TextType | TextArea | NumberType | File | Drawing | Select | BlockType | DateType
    | Time | DateTime | MultiSelect | Email | Tel | Color | Checkbox

  /**
   The library predicates and conversions the services call but do not define. The database compares ids by
   value: `uuidValue` is the id a text stands for, spelled as the database returns it.
   */
  datatype Formats = Formats(
    isUuid: string -> bool,
    uuidValue: string -> string,
    isEmail: string -> bool,
    isHexColor: string -> bool,
    isDate: string -> bool,
    lower: string -> string,
    parseNumber: string -> Number,
    showNumber: Number -> string)

  /** `undefined`, `null`, `""` and the empty array. */
  predicate IsMissing(v: Value) {
    v.Undefined? || v.Null? || v == Str("") || v == Arr([])
  }

  /** What a JSON column keeps of a value: a number that is not finite becomes null. */
  function InJson(v: Value): Value {
    if v.Num? && !v.n.Finite? then Null else v
  }

  /** A UUID spelled as the database returns it. */
  predicate AsStored(fmt: Formats, id: string) {
    fmt.isUuid(id) && fmt.uuidValue(id) == id
  }

  predicate FileLike(t: AttributeType) {
    t.File? || t.Drawing?
  }

  function ConfigObject(config: Value): Option<map<string, Value>> {
    if config.Obj? then Some(config.fields) else None
  }

  function NonBlankStrings(items: seq<Value>): seq<string> {
    if items == [] then []
    else
      var rest := NonBlankStrings(items[1..]);
      if items[0].Str? && Trim(items[0].s) != "" then [items[0].s] + rest else rest
  }

  function ConfigStringArray(config: Option<map<string, Value>>, key: string): seq<string> {
    if config.Some? && key in config.value && config.value[key].Arr?
    then NonBlankStrings(config.value[key].items)
    else []
  }

  function ConfigBoolean(config: Option<map<string, Value>>, key: string): bool {
    config.Some? && key in config.value && config.value[key] == Bool(true)
  }

  function ConfigPositiveInteger(config: Option<map<string, Value>>, key: string, fallback: Option<nat>): Option<nat> {
    if config.Some? && key in config.value && config.value[key].Num? && config.value[key].n.Finite?
    then
      var r := config.value[key].n.r;
      if r.Floor as real == r && r > 0.0 then Some(r.Floor) else fallback
    else fallback
  }

  /** The strings of a list of values, in order. */
  function StringsOf(items: seq<Value>): seq<string> {
    if items == [] then []
    else if items[0].Str? then [items[0].s] + StringsOf(items[1..])
    else StringsOf(items[1..])
  }

  function StringArray(parts: seq<string>): (v: seq<Value>)
    ensures |v| == |parts|
    ensures forall i :: 0 <= i < |parts| ==> v[i] == Str(parts[i])
  {
    if parts == [] then [] else [Str(parts[0])] + StringArray(parts[1..])
  }

  predicate AllStrings(items: seq<Value>) {
    forall i :: 0 <= i < |items| ==> items[i].Str?
  }

  lemma {:induction false} StringsOfStringArray(parts: seq<string>)
    ensures StringsOf(StringArray(parts)) == parts
  {
    if parts != [] {
      StringsOfStringArray(parts[1..]);
    }
  }

  lemma {:induction false} StringArrayOfStringsOf(items: seq<Value>)
    requires AllStrings(items)
    ensures StringArray(StringsOf(items)) == items
  {
    if items != [] {
      StringArrayOfStringsOf(items[1..]);
    }
  }

  /** `value.split(";")` of a string, or the array itself: the item list of a list-valued attribute. */
  function SplitToItems(v: Value): Option<seq<Value>> {
    if v.Arr? then Some(v.items)
    else if v.Str? then Some(StringArray(Split(v.s, ';')))
    else None
  }
}
