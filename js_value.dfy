/**
 * The values the instrumentation stores in beacon variables and the decoder reads back from
 * the parsed beacon: JSON values with integer numbers, and JavaScript truthiness on them and on
 * optional timestamps (`undefined`/`null` being `None`).
 */
module JsValue {
  import opened Wrappers

  datatype Json =
    | JNull
    | JBool(b: bool)
    | JNum(n: int)
    | JStr(s: string)
    | JArr(items: seq<Json>)
    | JObj(fields: seq<(string, Json)>)
  {
    /** `typeof v === "object" && v !== null`. */
    predicate IsObject() {
      JArr? || JObj?
    }

    /** `!!v`. */
    predicate Truthy() {
      match this
      case JNull => false
      case JBool(b) => b
      case JNum(n) => n != 0
      case JStr(s) => s != ""
      case _ => true
    }
  }

  /** `!!t` for a timestamp that may be `undefined`. */
  predicate IsSet(t: Option<int>) {
    t.Some? && t.value != 0
  }

  /** `!!s` for a string that may be `undefined`. */
  predicate IsSetStr(s: Option<string>) {
    s.Some? && s.value != ""
  }

  /** `a || b` on timestamps. */
  function Or(a: Option<int>, b: Option<int>): (r: Option<int>)
    ensures IsSet(a) ==> r == a
    ensures !IsSet(a) ==> r == b
  {
    if IsSet(a) then a else b
  }

  /** `t || undefined`: a zero timestamp counts as missing. */
  function OrUndefined(t: Option<int>): (r: Option<int>)
    ensures r.Some? ==> r.value != 0
  {
    if IsSet(t) then t else None
  }
}
