/**
 * The loosely typed values the ingestion pipeline handles: Python floats,
 * JSON documents as `requests` decodes them, and the two parsers the
 * pipeline borrows from the runtime (`float()` and `pd.to_datetime`).
 */
module Payload {
  import opened Wrappers

  /** A Python float: a real number, an infinity or NaN. Rounding to 64 bits is not modelled. */
  datatype Float = Finite(value: real) | PosInf | NegInf | NaN

  /**
   * A decoded JSON value. Python's decoder also accepts `NaN` and
   * `Infinity`, so numbers are `Float`s; objects are dictionaries.
   */
  datatype Json =
    | JNull
    | JBool(b: bool)
    | JNum(n: Float)
    | JStr(s: string)
    | JArr(items: seq<Json>)
    | JObj(fields: map<string, Json>)

  /** A timestamp after `pd.to_datetime(..., utc=True, errors="coerce")`: an instant, or NaT. */
  datatype Instant = At(nanos: int) | NaT

  /**
   * The runtime's parsers, which the model takes as given:
   * `toFloat(s)` is `float(s)` (`None` where it raises ValueError),
   * `toInstant(v)` is `pd.to_datetime(v, utc=True, errors="coerce")`:
   * an unreadable timestamp coerces to NaT, but some inputs (a mapping
   * without date columns, say) still raise, which is `None` here; and
   * `toText(v)` is `str(v)` as `astype(str)` applies it to a cell.
   */
  datatype Parsers = Parsers(
    toFloat: string -> Option<Float>,
    toInstant: Json -> Option<Instant>,
    toText: Json -> string)

  /** Any exception raised inside a city's processing; the one handler treats every kind alike. */
  datatype Raised = Raised

  /** `obj.get(key)`: the value under `key`, or `None` when the key is absent. */
  function Get(obj: Json, key: string): Json
    requires obj.JObj?
  {
    if key in obj.fields then obj.fields[key] else JNull
  }

  /** Python truthiness: `None`, `False`, zero, and empty strings, lists and dicts are false. */
  predicate Falsy(v: Json) {
    match v
    case JNull => true
    case JBool(b) => !b
    case JNum(n) => n == Finite(0.0)
    case JStr(s) => s == []
    case JArr(items) => items == []
    case JObj(fields) => fields == map[]
  }

  /** `v or {}`. */
  function OrEmpty(v: Json): Json
  {
    if Falsy(v) then JObj(map[]) else v
  }

  /** `pd.isna(v)` on a scalar: `None` or a float NaN. A string is never NA. */
  predicate IsNA(v: Json) {
    v == JNull || v == JNum(NaN)
  }

  /**
   * The truth of `pd.isna(v)` in an `if` or an `or`. A scalar answers for
   * itself. A list becomes an array: with exactly one element its truth is
   * that element's (a nested list counts as a further dimension); with two
   * or more its truth is ambiguous and raises. The truth of an empty array
   * depends on the numpy version and is modelled as raising.
   */
  function NATruth(v: Json): (r: Result<bool, Raised>)
    ensures !v.JArr? ==> r == Ok(IsNA(v))
    ensures v.JArr? && |v.items| != 1 ==> r.Err?
  {
    match v
    case JArr(items) =>
      if |items| == 1 then
        (if items[0].JArr? then NATruth(items[0]) else Ok(IsNA(items[0])))
      else Err(Raised)
    case _ => Ok(IsNA(v))
  }
}
