/**
 * JSON values as `JSON.parse` and `jwt.verify` hand them to the middleware, with the two
 * JavaScript operations the permission checks apply to them: truthiness and property reads.
 */
module JsonValues {
  import opened Wrappers

  datatype Json = JNull | JBool(b: bool) | JNum(n: int) | JStr(s: string) | JArr(items: seq<Json>) | JObj(members: map<string, Json>)

  /** What a middleware does with a request: `next()`, or an error status with its message. */
  datatype Response = Next | Status(code: int, message: string)

  /** JavaScript truthiness of a value that may be `undefined` (`None`). */
  predicate Truthy(v: Option<Json>) {
    match v
    case None => false
    case Some(JNull) => false
    case Some(JBool(b)) => b
    case Some(JNum(n)) => n != 0
    case Some(JStr(s)) => s != []
    case Some(_) => true
  }

  /** A read that would throw a `TypeError`: a property of `undefined` or `null`. */
  predicate Nullish(v: Option<Json>) {
    v.None? || v == Some(JNull)
  }

  /**
   * `v[k]` on a value that is not nullish: an object's member, `undefined` when it has none, and
   * `undefined` on every other kind of value.
   */
  function Get(v: Option<Json>, k: string): (r: Option<Json>)
    requires !Nullish(v)
    ensures r.Some? <==> v.value.JObj? && k in v.value.members
    ensures r.Some? ==> r.value == v.value.members[k]
  {
    match v.value
    case JObj(m) => if k in m then Some(m[k]) else None
    case _ => None
  }

  /** `v?.[k]`: `undefined` when `v` is nullish. */
  function OptionalGet(v: Option<Json>, k: string): (r: Option<Json>)
    ensures Nullish(v) ==> r.None?
    ensures !Nullish(v) ==> r == Get(v, k)
  {
    if Nullish(v) then None else Get(v, k)
  }

  /** The value at the end of a path of member names, through objects only. */
  function Walk(v: Json, path: seq<string>): Option<Json> {
    if path == [] then Some(v)
    else if v.JObj? && path[0] in v.members then Walk(v.members[path[0]], path[1..])
    else None
  }
}
