/**
 * The dynamically typed values that travel in the system's metadata maps and
 * that the utility functions walk: a JSON-like tree whose objects are
 * string-keyed maps. Floating-point numbers are not represented.
 */
module Values {

  datatype Value =
    | Null
    | Bool(b: bool)
    | Num(n: int)
    | Str(s: string)
    | List(items: seq<Value>)
    | Dict(entries: map<string, Value>)

  /** A string-keyed dictionary such as an appointment's or a patient's `metadata`. */
  type Metadata = map<string, Value>

  /** Python truthiness of a dictionary: a dictionary is falsy exactly when it is empty. */
  predicate IsTruthyMap(m: Metadata)
  {
    m != map[]
  }
}
