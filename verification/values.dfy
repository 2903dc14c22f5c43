/** Values exchanged with the application: optional columns, the three
    states a field of a JavaScript payload can be in, and stored dates. */
module Values {

  /** A nullable column. */
  datatype Option<+T> = None | Some(value: T)

  /** A field of an incoming payload: `undefined`, `null`, or a value. */
  datatype Opt<+T> = Missing | Null | Given(value: T)

  /** A stored date-time, identified by the text it was built from; date
      parsing and formatting are not part of this model. */
  datatype Stamp = Stamp(text: string)

  /** JavaScript truthiness of a string-valued field: only a non-empty string is truthy. */
  predicate Filled(v: Opt<string>) {
    v.Given? && v.value != ""
  }

  /** The column written by a create: `undefined` and `null` both leave it null. */
  function Column<T>(v: Opt<T>): (c: Option<T>)
    ensures c.Some? <==> v.Given?
    ensures c.Some? ==> c.value == v.value
  {
    match v
    case Given(x) => Some(x)
    case _ => None
  }

  /** The column after an update: `undefined` leaves the old value in place,
      `null` clears it, a value replaces it. */
  function Updated<T>(prev: Option<T>, v: Opt<T>): (c: Option<T>)
    ensures v.Missing? ==> c == prev
    ensures v.Null? ==> c.None?
    ensures v.Given? ==> c == Some(v.value)
  {
    match v
    case Missing => prev
    case Null => None
    case Given(x) => Some(x)
  }

  /** `v ? new Date(v) : null`: a date built only from a non-empty string. */
  function DateColumn(v: Opt<string>): (c: Option<Stamp>)
    ensures c.None? <==> !Filled(v)
    ensures c.Some? ==> c.value == Stamp(v.value)
  {
    if Filled(v) then Some(Stamp(v.value)) else None
  }

  /** A date text handed to the store unconverted, as a nested create does. */
  function DateText(v: Opt<string>): (c: Option<Stamp>)
    ensures c.None? <==> !v.Given?
    ensures c.Some? ==> c.value == Stamp(v.value)
  {
    match v
    case Given(s) => Some(Stamp(s))
    case _ => None
  }

  /** `xs?.map(f) || []` before the map: an absent or null list is empty. */
  function ListOrEmpty<T>(v: Opt<seq<T>>): (xs: seq<T>)
    ensures v.Given? ==> xs == v.value
    ensures !v.Given? ==> xs == []
  {
    if v.Given? then v.value else []
  }
}
