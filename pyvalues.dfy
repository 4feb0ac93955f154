// The Python values the server-side rules work on: decoded JSON request
// bodies and the dictionaries the in-memory store keeps, with the few
// built-in operations the rules use (`dict.get`, truthiness, `isinstance`,
// `float()`, `str.strip()`).
module PyValues {
  import opened Wrappers

  datatype Value =
    | Null
    | Bool(b: bool)
    | Int(i: int)
    | Float(r: real)
    | Str(s: string)
    | List(items: seq<Value>)
    | Dict(entries: map<string, Value>)

  type Record = map<string, Value>

  /** `d.get(k)`: the value under k, or None. */
  function Get(d: Record, k: string): (v: Value)
    ensures k !in d ==> v == Null
  {
    if k in d then d[k] else Null
  }

  /** Python's truth value: None, False, zero and empty containers are false. */
  predicate Truthy(v: Value)
  {
    match v
    case Null => false
    case Bool(b) => b
    case Int(i) => i != 0
    case Float(r) => r != 0.0
    case Str(s) => s != ""
    case List(items) => items != []
    case Dict(entries) => entries != map[]
  }

  /** `isinstance(v, (int, float))`; a bool is an int in Python. */
  predicate IsNumber(v: Value)
  {
    v.Bool? || v.Int? || v.Float?
  }

  /** `isinstance(v, int)`. */
  predicate IsInt(v: Value)
  {
    v.Bool? || v.Int?
  }

  /** The numeric value of a number. */
  function Num(v: Value): real
    requires IsNumber(v)
  {
    match v
    case Bool(b) => if b then 1.0 else 0.0
    case Int(i) => i as real
    case Float(r) => r
  }

  /** Python's `==` on these values: numbers compare by value whatever
      their kind (True == 1 == 1.0), lists element by element,
      dictionaries key by key, and values of different kinds are unequal. */
  predicate PyEq(a: Value, b: Value)
  {
    if IsNumber(a) || IsNumber(b) then IsNumber(a) && IsNumber(b) && Num(a) == Num(b)
    else match a
      case Null => b.Null?
      case Str(s) => b.Str? && b.s == s
      case List(xs) => b.List? && |xs| == |b.items| && forall i :: 0 <= i < |xs| ==> PyEq(xs[i], b.items[i])
      case Dict(m) => b.Dict? && m.Keys == b.entries.Keys && forall k :: k in m ==> PyEq(m[k], b.entries[k])
  }

  /** Every value equals itself. */
  lemma {:induction false} PyEqReflexive(v: Value)
    ensures PyEq(v, v)
  {
    match v
    case List(xs) =>
      forall i | 0 <= i < |xs|
        ensures PyEq(xs[i], xs[i])
      {
        PyEqReflexive(xs[i]);
      }
    case Dict(m) =>
      forall k | k in m
        ensures PyEq(m[k], m[k])
      {
        PyEqReflexive(m[k]);
      }
    case _ =>
  }

  /** Equality is symmetric. */
  lemma {:induction false} PyEqSymmetric(a: Value, b: Value)
    ensures PyEq(a, b) ==> PyEq(b, a)
  {
    if PyEq(a, b) && !IsNumber(a) && !IsNumber(b) {
      match a
      case List(xs) =>
        forall i | 0 <= i < |xs|
          ensures PyEq(b.items[i], xs[i])
        {
          PyEqSymmetric(xs[i], b.items[i]);
        }
      case Dict(m) =>
        forall k | k in b.entries
          ensures PyEq(b.entries[k], m[k])
        {
          PyEqSymmetric(m[k], b.entries[k]);
        }
      case _ =>
    }
  }

  /** Unlike equality of the values themselves, Python's `==` identifies a
      bool, an int and a float of the same number; on strings, and on None,
      the two agree. */
  lemma PyEqAcrossKinds()
    ensures PyEq(Bool(true), Int(1)) && PyEq(Int(1), Float(1.0)) && PyEq(List([Int(0)]), List([Bool(false)]))
    ensures forall s: string, v :: PyEq(Str(s), v) <==> v == Str(s)
    ensures forall v :: PyEq(Null, v) <==> v == Null
  {
  }

  /** `float(v)`: numbers convert, a string converts when the host's parser
      accepts it (None stands for ValueError), anything else is a TypeError
      (None as well). */
  function ToFloat(v: Value, parse: string -> Option<real>): (r: Option<real>)
    ensures IsNumber(v) ==> r == Some(Num(v))
    ensures !IsNumber(v) && !v.Str? ==> r.None?
  {
    match v
    case Str(s) => parse(s)
    case _ => if IsNumber(v) then Some(Num(v)) else None
  }

  /** The characters `str.strip()` removes: the whitespace of the Latin-1
      range. */
  predicate IsSpace(c: char)
  {
    c == ' ' || c == '\t' || c == '\n' || c == '\r' || c == '\U{0B}' || c == '\U{0C}' ||
    c == '\U{1C}' || c == '\U{1D}' || c == '\U{1E}' || c == '\U{1F}' || c == '\U{85}' || c == '\U{A0}'
  }

  function TrimStart(s: string): (r: string)
    ensures |r| <= |s|
  {
    if s != [] && IsSpace(s[0]) then TrimStart(s[1..]) else s
  }

  function TrimEnd(s: string): (r: string)
    ensures |r| <= |s|
  {
    if s != [] && IsSpace(s[|s| - 1]) then TrimEnd(s[..|s| - 1]) else s
  }

  /** TrimStart drops the leading whitespace and nothing else. */
  lemma {:induction false} TrimStartCuts(s: string)
    ensures var r := TrimStart(s);
      r == s[|s| - |r|..] && (r == [] || !IsSpace(r[0])) && forall i :: 0 <= i < |s| - |r| ==> IsSpace(s[i])
  {
    if s != [] && IsSpace(s[0]) {
      TrimStartCuts(s[1..]);
    }
  }

  /** TrimEnd drops the trailing whitespace and nothing else. */
  lemma {:induction false} TrimEndCuts(s: string)
    ensures var r := TrimEnd(s);
      r == s[..|r|] && (r == [] || !IsSpace(r[|r| - 1])) && forall i :: |r| <= i < |s| ==> IsSpace(s[i])
  {
    if s != [] && IsSpace(s[|s| - 1]) {
      TrimEndCuts(s[..|s| - 1]);
    }
  }

  /** `s.strip()`: s without its leading and trailing whitespace. */
  function Strip(s: string): (r: string)
  {
    TrimEnd(TrimStart(s))
  }

  /** The stripped string is the slice of the original from its first to
      its last non-whitespace character: everything cut away is whitespace
      and neither end of the result is. */
  lemma StripIsSlice(s: string)
    ensures var r, a := Strip(s), |s| - |TrimStart(s)|;
      a + |r| <= |s| && r == s[a..a + |r|] &&
      (forall i :: 0 <= i < a ==> IsSpace(s[i])) &&
      (forall i :: a + |r| <= i < |s| ==> IsSpace(s[i]))
    ensures var r := Strip(s); r == [] || (!IsSpace(r[0]) && !IsSpace(r[|r| - 1]))
  {
    var t := TrimStart(s);
    var r := TrimEnd(t);
    var a := |s| - |t|;
    TrimStartCuts(s);
    TrimEndCuts(t);
    assert t == s[a..];
    assert r == t[..|r|];
    forall i | a + |r| <= i < |s|
      ensures IsSpace(s[i])
    {
      assert s[i] == t[i - a];
    }
  }

  /** A string with whitespace at neither end strips to itself, and a
      string of whitespace only strips to "". */
  lemma StripFixed(s: string)
    ensures s == [] || (!IsSpace(s[0]) && !IsSpace(s[|s| - 1])) ==> Strip(s) == s
    ensures (forall i :: 0 <= i < |s| ==> IsSpace(s[i])) ==> Strip(s) == []
  {
    TrimStartCuts(s);
    TrimEndCuts(TrimStart(s));
  }

  /** Stripping twice strips nothing more. */
  lemma StripIdempotent(s: string)
    ensures Strip(Strip(s)) == Strip(s)
  {
    StripIsSlice(s);
    StripFixed(Strip(s));
  }
}
