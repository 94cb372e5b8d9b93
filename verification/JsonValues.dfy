/** JSON documents as the gateway sees them, with the Python notions it applies
    to them: `dict.get`, truthiness and hashing. */
module JsonValues {
  import opened Collections

  datatype Json =
    | JNull
    | JBool(b: bool)
    | JInt(n: int)
    | JFloat(x: real)
    | JStr(s: string)
    | JList(items: seq<Json>)
    | JObj(fields: map<string, Json>)

  type Fields = map<string, Json>

  /** `d.get(key)` */
  function Get(d: Fields, key: string): Json {
    if key in d then d[key] else JNull
  }

  /** `bool(j)` */
  predicate Truthy(j: Json) {
    match j
    case JNull => false
    case JBool(b) => b
    case JInt(n) => n != 0
    case JFloat(x) => x != 0.0
    case JStr(s) => s != ""
    case JList(items) => items != []
    case JObj(fields) => fields != map[]
  }

  /** `a or b` */
  function Or(a: Json, b: Json): Json {
    if Truthy(a) then a else b
  }

  /** Lists and dicts cannot be hashed: looking them up in a set or dict raises. */
  predicate Unhashable(j: Json) {
    j.JList? || j.JObj?
  }

  /** Python's equality classes of hashable values: `1`, `1.0` and `True` are one key. */
  datatype Key = KNull | KNum(r: real) | KStr(s: string)

  function HashKey(j: Json): (k: Option<Key>)
    ensures k.None? <==> Unhashable(j)
  {
    match j
    case JNull => Some(KNull)
    case JBool(b) => Some(KNum(if b then 1.0 else 0.0))
    case JInt(n) => Some(KNum(n as real))
    case JFloat(x) => Some(KNum(x))
    case JStr(s) => Some(KStr(s))
    case _ => None
  }

  /** `isinstance(j, int)`: booleans count. */
  predicate IsInt(j: Json) {
    j.JInt? || j.JBool?
  }

  /** `j in s` for a set of strings, when `j` is hashable. */
  predicate InSet(j: Json, s: set<string>) {
    j.JStr? && j.s in s
  }

  /** `str | None` */
  predicate NullOrString(j: Json) {
    j.JNull? || j.JStr?
  }

  function OptString(j: Json): Option<string>
    requires NullOrString(j)
  {
    if j.JStr? then Some(j.s) else None
  }

  /** A call that may raise instead of returning. */
  datatype Outcome<+T> = Raised | Done(value: T)

  /** The falsy values are exactly these. */
  lemma TruthyExactly(j: Json)
    ensures !Truthy(j) <==>
      || j == JNull || j == JBool(false) || j == JInt(0) || j == JFloat(0.0)
      || j == JStr("") || j == JList([]) || j == JObj(map[])
  {}

  /** The number a value is, booleans included. */
  function NumberOf(j: Json): Option<real> {
    match j
    case JBool(b) => Some(if b then 1.0 else 0.0)
    case JInt(n) => Some(n as real)
    case JFloat(x) => Some(x)
    case _ => None
  }

  /** Two hashable values have one key exactly when Python takes them for equal: the same
      number, or the same text, or both null. */
  lemma KeysExactly(a: Json, b: Json)
    requires !Unhashable(a) && !Unhashable(b)
    ensures HashKey(a) == HashKey(b) <==>
      || (NumberOf(a).Some? && NumberOf(a) == NumberOf(b))
      || (a.JStr? && b.JStr? && a.s == b.s)
      || (a.JNull? && b.JNull?)
  {}
}
