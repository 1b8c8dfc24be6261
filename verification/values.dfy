/** Loosely-typed event records as they arrive from JSON: maps from field
    name to a scalar JSON value, with Python's truthiness, `str()` rendering,
    `dict.get` and `a or b` chains. */
module Values {
  import Numerals

  /** The scalar JSON values an event field can hold. */
  datatype Value = JNull | JBool(b: bool) | JInt(i: int) | JStr(s: string)

  /** One event: a JSON object. */
  type Event = map<string, Value>

  /** Python truthiness: `None`, `False`, `0` and `""` are falsy. */
  predicate Truthy(v: Value) {
    match v
    case JNull => false
    case JBool(b) => b
    case JInt(i) => i != 0
    case JStr(s) => s != ""
  }

  /** `str(v)` (and `f"{v}"`). */
  function Render(v: Value): (r: string)
    ensures v.JNull? ==> r == "None"
    ensures v.JBool? ==> r == if v.b then "True" else "False"
    ensures v.JStr? ==> r == v.s
    ensures v.JInt? ==> Numerals.IsCanonicalNumeral(r) && Numerals.NumeralValue(r) == v.i
    ensures v.JInt? ==> |r| >= 1
  {
    match v
    case JNull => "None"
    case JBool(b) => if b then "True" else "False"
    case JInt(i) => Numerals.IntToDecimal(i)
    case JStr(s) => s
  }

  /** `event.get(key)`: `None` when the key is absent. */
  function Get(e: Event, key: string): (v: Value)
    ensures key !in e ==> v == JNull
  {
    if key in e then e[key] else JNull
  }

  /** `event.get(key, default)`: the default only when the key is absent,
      not when it is present and falsy. */
  function GetOr(e: Event, key: string, default: Value): (v: Value)
    ensures key in e ==> v == e[key]
    ensures key !in e ==> v == default
  {
    if key in e then e[key] else default
  }

  /** `a or b`: `a` when truthy, otherwise `b`. The result is one of the
      operands, and truthy exactly when either is. */
  function Or(a: Value, b: Value): (v: Value)
    ensures Truthy(a) ==> v == a
    ensures !Truthy(a) ==> v == b
    ensures v == a || v == b
    ensures Truthy(v) <==> Truthy(a) || Truthy(b)
  {
    if Truthy(a) then a else b
  }

  /** The value Python uses as the dictionary key for `v`: `True` and `1`
      (and `False` and `0`) are the same key. */
  function KeyOf(v: Value): (k: Value)
    ensures !k.JBool?
    ensures Truthy(k) == Truthy(v)
  {
    match v
    case JBool(b) => JInt(if b then 1 else 0)
    case _ => v
  }

  /** Two values name the same dictionary key exactly when they are equal
      or one is `True` and the other `1`, or one is `False` and the other
      `0`. */
  lemma KeyOfSameKey(a: Value, b: Value)
    ensures KeyOf(a) == KeyOf(b) <==>
      || a == b
      || (a == JBool(true) && b == JInt(1)) || (a == JInt(1) && b == JBool(true))
      || (a == JBool(false) && b == JInt(0)) || (a == JInt(0) && b == JBool(false))
  {
  }
}
