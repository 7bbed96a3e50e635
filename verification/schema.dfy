/** JSON request bodies and the `zod` checks the routes put on them. An object schema looks at
    its own keys only (unknown keys are stripped), an `.optional()` key may be missing but not
    `null`, and a body that fails any check is refused as a whole. */
module Schema {
  import opened Wrappers
  import opened Text

  datatype Json =
    | JNull
    | JBool(b: bool)
    | JNumber(n: int)
    | JString(s: string)
    | JArray(items: seq<Json>)
    | JObject(fields: map<string, Json>)

  /** What the schema makes of one key of the object. */
  datatype Field<T> = Missing | Valid(value: T) | Refused {

    /** The field as a TypeScript optional: `undefined` when missing. */
    function ToOption(): Option<T> {
      if Valid? then Some(value) else None
    }
  }

  /** `z.string()` with an extra refinement `accept`. */
  function StringField(fields: map<string, Json>, key: string, accept: string -> bool): (f: Field<string>)
    ensures f.Missing? <==> key !in fields
    ensures f.Valid? <==> key in fields && fields[key].JString? && accept(fields[key].s)
    ensures f.Valid? ==> f.value == fields[key].s
  {
    if key !in fields then Missing
    else match fields[key]
      case JString(s) => if accept(s) then Valid(s) else Refused
      case _ => Refused
  }

  /** `z.enum([...])`: a string that `parse` recognises. */
  function EnumField<T>(fields: map<string, Json>, key: string, parse: string -> Option<T>): (f: Field<T>)
    ensures f.Missing? <==> key !in fields
    ensures f.Valid? <==> key in fields && fields[key].JString? && parse(fields[key].s).Some?
    ensures f.Valid? ==> f.value == parse(fields[key].s).value
  {
    if key !in fields then Missing
    else match fields[key]
      case JString(s) => if parse(s).Some? then Valid(parse(s).value) else Refused
      case _ => Refused
  }

  /** `z.number()` with an extra refinement `accept`. */
  function NumberField(fields: map<string, Json>, key: string, accept: int -> bool): (f: Field<int>)
    ensures f.Missing? <==> key !in fields
    ensures f.Valid? <==> key in fields && fields[key].JNumber? && accept(fields[key].n)
    ensures f.Valid? ==> f.value == fields[key].n
  {
    if key !in fields then Missing
    else match fields[key]
      case JNumber(n) => if accept(n) then Valid(n) else Refused
      case _ => Refused
  }

  /** A key of a `.partial()` or `.optional()` schema passes when it is missing or valid. */
  predicate Passes<T>(f: Field<T>) {
    !f.Refused?
  }

  predicate AnyString(s: string) { true }
  predicate NonEmpty(s: string) { |s| >= 1 }
  predicate AnyNumber(n: int) { true }
  predicate Positive(n: int) { n > 0 }

  /** `/^\d{4}-\d{2}-\d{2}$/`: exactly four digits, a dash, two digits, a dash, two digits. */
  predicate IsDateText(s: string) {
    && |s| == 10
    && IsDigit(s[0]) && IsDigit(s[1]) && IsDigit(s[2]) && IsDigit(s[3])
    && s[4] == '-'
    && IsDigit(s[5]) && IsDigit(s[6])
    && s[7] == '-'
    && IsDigit(s[8]) && IsDigit(s[9])
  }

  /** `value` is the string the object holds under `key`, and `None` exactly when the key is missing. */
  predicate CarriesString(fields: map<string, Json>, key: string, value: Option<string>) {
    (value.Some? <==> key in fields) && (value.Some? ==> fields[key] == JString(value.value))
  }

  /** The key is missing or holds a string that `accept` allows. */
  predicate OptionalString(fields: map<string, Json>, key: string, accept: string -> bool) {
    key in fields ==> fields[key].JString? && accept(fields[key].s)
  }

  /** A JSON object with one more (or one replaced) property. */
  function With(body: Json, key: string, value: Json): Json {
    if body.JObject? then JObject(body.fields[key := value]) else body
  }
}
