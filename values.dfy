// Scalar JSON values as the decision engine sees them, with the parts of
// Python's semantics that the engine relies on: `==` between values,
// truthiness, `dict.get` and `str.lower`.

module Wrappers {

  datatype Option<+T> = None | Some(value: T) {
    function GetOr(default: T): T {
      match this
      case Some(v) => v
      case None => default
    }
  }

  datatype Result<+R, +E> = Success(value: R) | Failure(error: E)
}

module Values {

  /** A scalar JSON value loaded from the data files. */
  datatype Value = VNull | VBool(b: bool) | VInt(i: int) | VStr(s: string)

  /** A JSON object: a request record, a decision payload. */
  type Record = map<string, Value>

  /** The integer a value stands for in Python arithmetic and comparison
      (`bool` is a subclass of `int`), if any. */
  function Numeric(v: Value): (n: int)
    requires v.VBool? || v.VInt?
  {
    match v
    case VBool(b) => if b then 1 else 0
    case VInt(i) => i
  }

  /** Python `a == b` on two loaded values: `True == 1` and `False == 0`
      hold, and values of unrelated types are never equal. */
  predicate PyEq(a: Value, b: Value) {
    if (a.VBool? || a.VInt?) && (b.VBool? || b.VInt?) then Numeric(a) == Numeric(b)
    else a == b
  }

  lemma PyEqIsEquivalence(a: Value, b: Value, c: Value)
    ensures PyEq(a, a)
    ensures PyEq(a, b) ==> PyEq(b, a)
    ensures PyEq(a, b) && PyEq(b, c) ==> PyEq(a, c)
  {
  }

  /** `None` is equal only to `None` (a missing field read with `get`). */
  lemma PyEqNull(v: Value)
    ensures PyEq(VNull, v) <==> v == VNull
  {
  }

  /** Python truthiness: `None`, `False`, `0` and `""` are false. */
  predicate Truthy(v: Value) {
    match v
    case VNull => false
    case VBool(b) => b
    case VInt(i) => i != 0
    case VStr(s) => s != ""
  }

  /** `record.get(key)`: a missing key reads as `None`. */
  function Get(r: Record, key: string): Value {
    if key in r then r[key] else VNull
  }

  function LowerChar(c: char): char {
    if 'A' <= c <= 'Z' then (c as int + 32) as char else c
  }

  /** `str.lower()`, for the ASCII letters. */
  function Lower(s: string): string {
    seq(|s|, i requires 0 <= i < |s| => LowerChar(s[i]))
  }

  /** Lowering twice is lowering once: the engine name, lowered when the
      required skills are built and again when they are compared, is
      compared in its once-lowered form. */
  lemma LowerIdempotent(s: string)
    ensures Lower(Lower(s)) == Lower(s)
  {
  }

  /** Python's `<` on `str`: lexicographic by code point, a proper prefix
      being smaller. */
  predicate StrLess(a: string, b: string)
    decreases |a|
  {
    if |a| == 0 then |b| > 0
    else if |b| == 0 then false
    else a[0] < b[0] || (a[0] == b[0] && StrLess(a[1..], b[1..]))
  }

  lemma {:induction false} StrLessIrreflexive(a: string)
    ensures !StrLess(a, a)
    decreases |a|
  {
    if |a| > 0 {
      StrLessIrreflexive(a[1..]);
    }
  }

  /** Strictly increasing under Python's string order, hence no duplicates. */
  predicate StrictlySorted(xs: seq<string>) {
    forall i, j :: 0 <= i < j < |xs| ==> StrLess(xs[i], xs[j])
  }

  lemma StrictlySortedHasNoDuplicates(xs: seq<string>)
    requires StrictlySorted(xs)
    ensures forall i, j :: 0 <= i < j < |xs| ==> xs[i] != xs[j]
  {
    forall i, j | 0 <= i < j < |xs| ensures xs[i] != xs[j] {
      StrLessIrreflexive(xs[i]);
    }
  }
}
