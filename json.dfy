// JSON values as Python's `json` module hands them over, and the two
// Python idioms the service applies to them: truthiness and `dict.get`.
module Json {
  import opened Wrappers

  /** A decoded JSON document. Numbers are integers in this model. */
  datatype Json =
    | JNull
    | JBool(b: bool)
    | JNum(n: int)
    | JStr(s: string)
    | JArr(items: seq<Json>)
    | JObj(fields: map<string, Json>)

  /** Python truthiness of the decoded value: `None`, `False`, `0`, `""`,
      `[]` and `{}` are false, everything else is true. */
  predicate Truthy(j: Json) {
    match j
    case JNull => false
    case JBool(b) => b
    case JNum(n) => n != 0
    case JStr(s) => s != []
    case JArr(items) => items != []
    case JObj(fields) => fields != map[]
  }

  /** Python's `==` on decoded values: `True == 1` and `False == 0`, lists
      element by element, dicts by their keys and the values under them. */
  predicate PyEq(a: Json, b: Json)
    decreases a
  {
    match a
    case JNull => b.JNull?
    case JBool(x) => (b.JBool? && b.b == x) || (b.JNum? && b.n == (if x then 1 else 0))
    case JNum(n) => (b.JNum? && b.n == n) || (b.JBool? && n == (if b.b then 1 else 0))
    case JStr(s) => b.JStr? && b.s == s
    case JArr(xs) => b.JArr? && |xs| == |b.items| && forall i :: 0 <= i < |xs| ==> PyEq(xs[i], b.items[i])
    case JObj(f) => b.JObj? && f.Keys == b.fields.Keys && forall k :: k in f ==> PyEq(f[k], b.fields[k])
  }

  /** Every value equals itself under Python's `==`. */
  lemma {:induction false} PyEqReflexive(a: Json)
    ensures PyEq(a, a)
    decreases a
  {
    match a
    case JArr(xs) =>
      forall i | 0 <= i < |xs| ensures PyEq(xs[i], xs[i]) {
        PyEqReflexive(xs[i]);
      }
    case JObj(f) =>
      forall k | k in f ensures PyEq(f[k], f[k]) {
        PyEqReflexive(f[k]);
      }
    case _ =>
  }

  /** `d.get(key)` on a dict. */
  function Get(d: map<string, Json>, key: string): (r: Option<Json>)
    ensures r.Some? <==> key in d
    ensures r.Some? ==> r.value == d[key]
  {
    if key in d then Some(d[key]) else None
  }

  /** `d.get(key) or default`: the stored value when present and truthy,
      otherwise the default. */
  function GetOr(d: map<string, Json>, key: string, default: Json): (r: Json)
    ensures key in d && Truthy(d[key]) ==> r == d[key]
    ensures !(key in d && Truthy(d[key])) ==> r == default
  {
    match Get(d, key)
    case Some(v) => if Truthy(v) then v else default
    case None => default
  }
}
