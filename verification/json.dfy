/** The loosely typed values the tracker stores and receives.

    Payloads and stored records are JSON objects whose values are scalars or
    lists; Python's equality, truthiness and `isinstance` tests on them are
    written out here because the validators and the store depend on each.
 */
module Json {

  datatype JValue =
    | JNull
    | JBool(b: bool)
    | JInt(i: int)
    | JNum(r: real)
    | JStr(s: string)
    | JList(items: seq<JValue>)

  /** A payload or a stored record: one JSON object. */
  type Record = map<string, JValue>

  /** `record.get(key)`: the value, or None when the key is absent. */
  function Get(r: Record, key: string): JValue
  {
    if key in r then r[key] else JNull
  }

  /** The class of values Python's `==` cannot tell apart.  A bool is an int
      (True == 1), and an int equals the float of the same value (1 == 1.0);
      lists compare element by element. */
  function Norm(v: JValue): JValue
    decreases v
  {
    match v
    case JBool(b) => JNum(if b then 1.0 else 0.0)
    case JInt(i) => JNum(i as real)
    case JList(xs) => JList(seq(|xs|, k requires 0 <= k < |xs| => Norm(xs[k])))
    case _ => v
  }

  /** Python's `a == b` on two JSON values. */
  predicate PyEq(a: JValue, b: JValue)
  {
    Norm(a) == Norm(b)
  }

  /** Only a string equals a string: comparing anything with a Python `str`
      is plain equality. */
  lemma NormIsStr(v: JValue, s: string)
    ensures Norm(v) == JStr(s) <==> v == JStr(s)
  {
  }

  /** `==` on JSON values is an equivalence that identifies True, 1 and 1.0. */
  lemma PyEqExamples()
    ensures PyEq(JBool(true), JInt(1)) && PyEq(JInt(1), JNum(1.0))
    ensures PyEq(JList([JInt(2)]), JList([JNum(2.0)]))
    ensures !PyEq(JStr("1"), JInt(1)) && !PyEq(JNull, JBool(false))
  {
  }

  /** Python truthiness (`if value:`). */
  predicate Truthy(v: JValue)
  {
    match v
    case JNull => false
    case JBool(b) => b
    case JInt(i) => i != 0
    case JNum(r) => r != 0.0
    case JStr(s) => s != ""
    case JList(xs) => xs != []
  }

  /** `isinstance(v, int)`: a bool is an int in Python. */
  predicate PyInt(v: JValue)
  {
    v.JInt? || v.JBool?
  }

  /** `isinstance(v, (int, float))`. */
  predicate PyNumber(v: JValue)
  {
    PyInt(v) || v.JNum?
  }

  /** The numeric value of an int, float or bool. */
  function Num(v: JValue): real
    requires PyNumber(v)
  {
    match v
    case JBool(b) => if b then 1.0 else 0.0
    case JInt(i) => i as real
    case JNum(r) => r
  }

  /** Numbers compare equal exactly when their values are equal. */
  lemma PyEqNumbers(a: JValue, b: JValue)
    requires PyNumber(a) && PyNumber(b)
    ensures PyEq(a, b) <==> Num(a) == Num(b)
  {
  }

  /** Values usable as a dict key: a list is unhashable. */
  predicate Hashable(v: JValue)
  {
    !v.JList?
  }

  /** ASCII lower-casing.  For the one use the tracker makes of `str.lower()`,
      looking for "password", this agrees with Python's Unicode rule: no
      non-ASCII character lower-cases to one of the letters of that word. */
  function LowerChar(c: char): char
  {
    if 'A' <= c <= 'Z' then (c as int - 'A' as int + 'a' as int) as char else c
  }

  function Lower(s: string): (r: string)
    ensures |r| == |s|
    ensures forall k :: 0 <= k < |s| ==> r[k] == LowerChar(s[k])
  {
    seq(|s|, k requires 0 <= k < |s| => LowerChar(s[k]))
  }

  /** `needle` occurs in `hay` starting at position `k`. */
  predicate OccursAt(hay: string, needle: string, k: nat)
  {
    k + |needle| <= |hay| && hay[k..k + |needle|] == needle
  }

  /** `needle in hay` for two strings. */
  predicate Contains(hay: string, needle: string)
  {
    exists k: nat | k <= |hay| :: OccursAt(hay, needle, k)
  }
}
