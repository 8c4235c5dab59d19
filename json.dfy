/** JSON values as they arrive in request bodies, route parameters and query
    strings, and as documents are kept in the store. A key missing from an
    object stands for JavaScript `undefined`; `JNull` is `null`. JavaScript
    numbers are modelled as reals (JSON cannot carry NaN or the infinities). */
module Json {

  datatype Option<+T> = None | Some(value: T)

  datatype Json =
    | JNull
    | JBool(b: bool)
    | JNum(n: real)
    | JStr(s: string)
    | JArr(items: seq<Json>)
    | JObj(fields: map<string, Json>)

  /** A JSON object: a request body, a query, or a stored document. */
  type Object = map<string, Json>

  /** `o[k]`, with `None` for `undefined`. */
  function Get(o: Object, k: string): Option<Json>
  {
    if k in o then Some(o[k]) else None
  }

  /** JavaScript truthiness of a value that may be `undefined`: `undefined`,
      `null`, `false`, `0` and `''` are falsy, every object and array is truthy. */
  predicate Truthy(v: Option<Json>)
  {
    match v
    case None => false
    case Some(JNull) => false
    case Some(JBool(b)) => b
    case Some(JNum(n)) => n != 0.0
    case Some(JStr(s)) => s != ""
    case Some(_) => true
  }

  /** `v ?? d`: the default replaces `undefined` and `null` only. */
  function Coalesce(v: Option<Json>, d: Json): (r: Json)
    ensures v.None? || v.value == JNull ==> r == d
    ensures v.Some? && v.value != JNull ==> r == v.value
  {
    if v.None? || v.value == JNull then d else v.value
  }

  /** `v || d`: the default replaces every falsy value. */
  function OrElse(v: Option<Json>, d: Json): (r: Json)
    ensures Truthy(Some(d)) ==> Truthy(Some(r))
  {
    if Truthy(v) then v.value else d
  }

  /** `??` and `||` agree except on a defined, non-null falsy value (`false`,
      `0`, `''`) other than the default itself: `??` keeps it, `||` replaces
      it. */
  lemma CoalesceVersusOr(v: Option<Json>, d: Json)
    ensures Coalesce(v, d) == OrElse(v, d) <==> Truthy(v) || v.None? || v.value == JNull || v.value == d
    ensures v.Some? && v.value != JNull ==> Coalesce(v, d) == v.value
  {
  }

  /** The text of a string value, if it is one. */
  function AsString(v: Option<Json>): Option<string>
  {
    if v.Some? && v.value.JStr? then Some(v.value.s) else None
  }

  /** Adds property `k` to an object literal unless its value is `undefined`,
      which is how Mongoose treats such a property when it builds a document. */
  function Put(o: Object, k: string, v: Option<Json>): (r: Object)
    ensures v.Some? ==> k in r && r[k] == v.value
    ensures v.None? ==> (k in r <==> k in o) && (k in o ==> r[k] == o[k])
    ensures forall j :: j != k ==> (j in r <==> j in o) && (j in o ==> r[j] == o[j])
  {
    if v.Some? then o[k := v.value] else o
  }
}
