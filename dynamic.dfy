/**
 * Dynamic values of the feature-flag client.
 *
 * The client passes Go `any` values around: literals decoded from the
 * server's JSON, values held in the caller's evaluation context, and the
 * results of value procs.  Here they form a closed variant, together with
 * the conversions conditions.go applies to them before comparing.
 */
module Dynamic {

  datatype Option<+T> = None | Some(value: T)

  datatype Result<+T, +E> = Ok(value: T) | Err(error: E)

  /** Go's uint32. */
  type Uint32 = x: int | 0 <= x < 0x1_0000_0000

  /**
   * A Go `any` as the client meets it.  VInt stands for Go `int`, VReal for
   * `float64` (what encoding/json produces for numbers), VStrList for
   * `[]string` and VList for `[]any`.
   */
  datatype Val =
    | VNil
    | VInt(i: int)
    | VReal(r: real)
    | VStr(s: string)
    | VBool(b: bool)
    | VStrList(strs: seq<string>)
    | VList(elems: seq<Val>)

  /** The caller's evaluation context, `map[string]any`. */
  type Context = map<string, Val>

  /**
   * The library code the conditions call into and that is not modelled:
   * - md5Tail(s): the last four bytes of the MD5 digest of s's UTF-8 bytes,
   *   read as a little-endian uint32 (crypto/md5 and encoding/binary);
   * - show(v): fmt's `%v` rendering of a value that is not a string;
   * - regexCompiles(p): whether regexp.Compile accepts p;
   * - regexFind(p, s): whether the compiled p matches somewhere in s.
   */
  datatype Runtime = Runtime(
    md5Tail: string -> Uint32,
    show: Val -> string,
    regexCompiles: string -> bool,
    regexFind: (string, string) -> bool)

  /** toFloat64: the numeric reading of a value, if it has one. */
  function ToFloat64(v: Val): Option<real>
  {
    match v
    case VInt(i) => Some(i as real)
    case VReal(x) => Some(x)
    case _ => None
  }

  /** toString: a string is itself, anything else is rendered with `%v`. */
  function ToStr(v: Val, rt: Runtime): string
  {
    if v.VStr? then v.s else rt.show(v)
  }

  /** toStringSlice as a value: []string as is, []any element-wise through toString. */
  function StringsOf(v: Val, rt: Runtime): Option<seq<string>>
  {
    match v
    case VStrList(xs) => Some(xs)
    case VList(es) => Some(seq(|es|, k requires 0 <= k < |es| => ToStr(es[k], rt)))
    case _ => None
  }

  /** toStringSlice: fills a fresh slice element by element. */
  method ToStringSlice(v: Val, rt: Runtime) returns (r: Option<seq<string>>)
    ensures r.Some? <==> (v.VStrList? || v.VList?)
    ensures v.VStrList? ==> r == Some(v.strs)
    ensures v.VList? ==> r.Some? && |r.value| == |v.elems|
                         && forall k :: 0 <= k < |v.elems| ==> r.value[k] == ToStr(v.elems[k], rt)
    ensures r == StringsOf(v, rt)
  {
    match v
    case VStrList(xs) =>
      r := Some(xs);
    case VList(es) =>
      var result := new string[|es|];
      for i := 0 to |es|
        invariant forall k :: 0 <= k < i ==> result[k] == ToStr(es[k], rt)
      {
        result[i] := ToStr(es[i], rt);
      }
      assert result[..] == seq(|es|, k requires 0 <= k < |es| => ToStr(es[k], rt));
      r := Some(result[..]);
    case _ =>
      r := None;
  }

  /** The set toSet builds from a slice. */
  function SetOf(slice: seq<string>): set<string>
  {
    set x | x in slice
  }

  /** toSet: the loop that builds SetOf(slice). */
  method ToSet(slice: seq<string>) returns (s: set<string>)
    ensures forall x :: x in s <==> x in slice
    ensures s == SetOf(slice)
  {
    s := {};
    for i := 0 to |slice|
      invariant forall x :: x in s <==> x in slice[..i]
    {
      s := s + {slice[i]};
    }
  }

  /** Go's `<` on strings: lexicographic order (UTF-8 byte order is code-point order). */
  predicate LexLess(a: string, b: string)
  {
    if |a| == 0 then |b| > 0
    else if |b| == 0 then false
    else if a[0] != b[0] then a[0] < b[0]
    else LexLess(a[1..], b[1..])
  }

  lemma {:induction false} LexLessIrreflexive(a: string)
    ensures !LexLess(a, a)
  {
    if |a| > 0 {
      LexLessIrreflexive(a[1..]);
    }
  }

  lemma {:induction false} LexLessTotal(a: string, b: string)
    ensures a == b || LexLess(a, b) || LexLess(b, a)
    ensures !(LexLess(a, b) && LexLess(b, a))
  {
    if |a| > 0 && |b| > 0 && a[0] == b[0] {
      LexLessTotal(a[1..], b[1..]);
      if a[1..] == b[1..] {
        assert a == [a[0]] + a[1..] && b == [b[0]] + b[1..];
      }
    }
  }

  /** Go's `int(x)` for a float64 in range: truncation toward zero. */
  function Trunc(x: real): (n: int)
    ensures x >= 0.0 ==> n as real <= x < n as real + 1.0
    ensures x < 0.0 ==> n as real - 1.0 < x <= n as real
  {
    if x >= 0.0 then x.Floor else -((-x).Floor)
  }
}
