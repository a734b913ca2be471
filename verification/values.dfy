/** Raw configuration values and the few Python runtime rules the validator
    relies on: `type`, `isinstance` (bool is a subclass of int), `str` of a
    type, `len`, iteration and ordering against an integer. */
module Values {
  import opened Wrappers

  /** A loosely-typed value as `json.load` produces it, plus an already
      decoded PIL image that a Python caller may put in a placement record. */
  datatype Value =
    | JNone
    | JBool(b: bool)
    | JInt(i: int)
    | JFloat(f: PyFloat)
    | JStr(s: string)
    | JList(items: seq<Value>)
    | JObject(entries: seq<(string, Value)>)
    | JImage(handle: nat)

  /** A Python float: `json.load` also accepts `NaN`, `Infinity` and
      `-Infinity`, which no real number stands for. */
  datatype PyFloat = Finite(r: real) | Infinite(negative: bool) | NaN

  /** `f < bound`: NaN compares false with everything, the infinities sit
      beyond every integer. */
  function FloatBelow(f: PyFloat, bound: int): bool {
    match f
    case Finite(r) => r < bound as real
    case Infinite(negative) => negative
    case NaN => false
  }

  /** `f > bound`, with the same rules. */
  function FloatAbove(f: PyFloat, bound: int): bool {
    match f
    case Finite(r) => r > bound as real
    case Infinite(negative) => !negative
    case NaN => false
  }

  /** The runtime classes those values can have. */
  datatype PyType = NoneType | Bool | Int | Float | Str | List | Dict | PilImage

  function TypeOf(v: Value): PyType {
    match v
    case JNone => NoneType
    case JBool(_) => Bool
    case JInt(_) => Int
    case JFloat(_) => Float
    case JStr(_) => Str
    case JList(_) => List
    case JObject(_) => Dict
    case JImage(_) => PilImage
  }

  /** Python's subclass relation on these classes: every class is its own
      subclass, and `bool` is a subclass of `int`. */
  predicate SubclassOf(a: PyType, b: PyType) {
    a == b || (a == Bool && b == Int)
  }

  /** The `expected` argument of the validator: one class, or a tuple of classes. */
  datatype Expected = One(t: PyType) | AnyOf(ts: seq<PyType>)

  /** `isinstance(v, e)` */
  predicate IsInstance(v: Value, e: Expected) {
    match e
    case One(t) => SubclassOf(TypeOf(v), t)
    case AnyOf(ts) => exists i :: 0 <= i < |ts| && SubclassOf(TypeOf(v), ts[i])
  }

  /** Only a bool or an int passes an `int` check. */
  lemma IntInstances(v: Value)
    ensures IsInstance(v, One(Int)) <==> v.JBool? || v.JInt?
  {
  }

  /** `str(t)` for a class. */
  function TypeRepr(t: PyType): (r: string)
    ensures |r| > 0 && r[0] == '<'
  {
    match t
    case NoneType => "<class 'NoneType'>"
    case Bool => "<class 'bool'>"
    case Int => "<class 'int'>"
    case Float => "<class 'float'>"
    case Str => "<class 'str'>"
    case List => "<class 'list'>"
    case Dict => "<class 'dict'>"
    case PilImage => "<class 'PIL.Image.Image'>"
  }

  function JoinReprs(ts: seq<PyType>): string {
    if |ts| == 0 then ""
    else if |ts| == 1 then TypeRepr(ts[0])
    else TypeRepr(ts[0]) + ", " + JoinReprs(ts[1..])
  }

  /** `str(expected)`: a class prints as `<class '...'>`, a tuple in parentheses
      (with the trailing comma Python prints for a one-element tuple). */
  function ExpectedRepr(e: Expected): string {
    match e
    case One(t) => TypeRepr(t)
    case AnyOf(ts) => if |ts| == 1 then "(" + TypeRepr(ts[0]) + ",)" else "(" + JoinReprs(ts) + ")"
  }

  /** `d[key]` on a dict, as an association list; a Python dict has distinct
      keys, so taking the first match is the same as taking the only one. */
  function Lookup(entries: seq<(string, Value)>, key: string): (r: Option<Value>)
    ensures r.None? <==> forall i :: 0 <= i < |entries| ==> entries[i].0 != key
    ensures r.Some? ==> exists i :: 0 <= i < |entries| && entries[i] == (key, r.value)
  {
    if |entries| == 0 then None
    else if entries[0].0 == key then Some(entries[0].1)
    else
      var r := Lookup(entries[1..], key);
      if r.Some? then
        ghost var i :| 0 <= i < |entries[1..]| && entries[1..][i] == (key, r.value);
        assert entries[i + 1] == (key, r.value);
        r
      else r
  }

  /** The entries of a Python dict: no key appears twice. */
  predicate DistinctKeys(entries: seq<(string, Value)>) {
    forall i, j :: 0 <= i < j < |entries| ==> entries[i].0 != entries[j].0
  }

  /** With distinct keys, `target[key]` finds the value stored under that
      key, wherever it stands. */
  lemma {:induction false} LookupDistinct(entries: seq<(string, Value)>, i: nat)
    requires DistinctKeys(entries) && i < |entries|
    ensures Lookup(entries, entries[i].0) == Some(entries[i].1)
    decreases i
  {
    if i > 0 {
      assert entries[0].0 != entries[i].0;
      assert entries[1..][i - 1] == entries[i];
      assert DistinctKeys(entries[1..]) by {
        forall a, b | 0 <= a < b < |entries[1..]|
          ensures entries[1..][a].0 != entries[1..][b].0
        {
          assert entries[1..][a] == entries[a + 1] && entries[1..][b] == entries[b + 1];
        }
      }
      LookupDistinct(entries[1..], i - 1);
    }
  }

  function KeysOf(entries: seq<(string, Value)>): seq<string>
    ensures |KeysOf(entries)| == |entries|
  {
    if |entries| == 0 then [] else [entries[0].0] + KeysOf(entries[1..])
  }

  function BoolAsInt(b: bool): int {
    if b then 1 else 0
  }

  /** `len(v)`: defined on str, list and dict; anything else raises TypeError. */
  function PyLen(v: Value): Option<nat> {
    match v
    case JStr(s) => Some(|s|)
    case JList(items) => Some(|items|)
    case JObject(entries) => Some(|entries|)
    case _ => None
  }

  /** The values a `for` loop visits: list items, characters of a str, keys of
      a dict; anything else is not iterable. */
  function PyIter(v: Value): (r: Option<seq<Value>>)
    ensures r.Some? <==> PyLen(v).Some?
    ensures r.Some? ==> |r.value| == PyLen(v).value
  {
    match v
    case JList(items) => Some(items)
    case JStr(s) => Some(seq(|s|, i requires 0 <= i < |s| => JStr([s[i]])))
    case JObject(entries) => Some(seq(|entries|, i requires 0 <= i < |entries| => JStr(entries[i].0)))
    case _ => None
  }

  /** `v < bound` for an integer bound: numbers (bool counting as 0/1) compare,
      anything else raises TypeError, modelled as `None`. */
  function LessThan(v: Value, bound: int): Option<bool> {
    match v
    case JBool(b) => Some(BoolAsInt(b) < bound)
    case JInt(i) => Some(i < bound)
    case JFloat(f) => Some(FloatBelow(f, bound))
    case _ => None
  }

  /** `v > bound` for an integer bound, with the same ordering rules. */
  function GreaterThan(v: Value, bound: int): Option<bool> {
    match v
    case JBool(b) => Some(BoolAsInt(b) > bound)
    case JInt(i) => Some(i > bound)
    case JFloat(f) => Some(FloatAbove(f, bound))
    case _ => None
  }
}
