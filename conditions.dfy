/**
 * The condition interpreter of conditions.go.
 *
 * The server sends each flag and value with a list of conditions, each an
 * AND of checks.  The source compiles them into Go closures; here a
 * compiled check is a CheckFunc, a compiled flag a FlagProc and a compiled
 * value a ValueProc, and the closures' bodies are the functions EvalCheck,
 * EvalFlagProc and EvalValueProc.  The Build* and Run* methods are the
 * loops of the source that build the condition lists and that evaluate
 * them, each proved equal to the function that gives its meaning.
 */
module Conditions {
  import opened Dynamic

  // Operator codes of the wire format (conditions.go:15-25).
  const OpEqual := 1
  const OpLessThan := 2
  const OpLessOrEqual := 3
  const OpGreaterThan := 4
  const OpGreaterOrEqual := 5
  const OpContains := 6
  const OpPercent := 7
  const OpRegexp := 8
  const OpWildcard := 9
  const OpSubset := 10
  const OpSuperset := 11

  // Variable types of the wire format (client.go:250-253).
  const TypeString := 1
  const TypeNumber := 2
  const TypeTimestamp := 3
  const TypeSet := 4

  datatype CheckVariable = CheckVariable(name: string, varType: int)

  /** One check as the server sends it; `operator` may be any integer. */
  datatype Check = Check(operator: int, variable: CheckVariable, value: Val)

  datatype Condition = Condition(checks: seq<Check>)

  datatype ValueCondition = ValueCondition(checks: seq<Check>, valueOverride: Val)

  datatype FlagResponse = FlagResponse(
    name: string,
    enabled: bool,
    overridden: bool,
    conditions: seq<Condition>)

  datatype ValueResponse = ValueResponse(
    name: string,
    enabled: bool,
    overridden: bool,
    valueDefault: Val,
    valueOverride: Val,
    conditions: seq<ValueCondition>)

  /** The four ordering operators. */
  datatype Cmp = Lt | Le | Gt | Ge

  /**
   * A compiled check: what the closure returned by one of the opX
   * constructors captures.  Never is the constant-false closure.
   */
  datatype CheckFunc =
    | Never
    | Equal(name: string, literal: Val)
    | Compare(cmp: Cmp, name: string, literal: Val)
    | Contains(name: string, needle: string)
    | Percent(name: string, threshold: real)
    | Regexp(name: string, pattern: string)
    | Wildcard(name: string, parts: seq<string>)
    | Subset(name: string, allowed: set<string>)
    | Superset(name: string, required: seq<string>)

  /** A compiled flag: a constant, or an OR over conditions of the AND of their checks. */
  datatype FlagProc = FlagConst(enabled: bool) | AnyOf(conditions: seq<seq<CheckFunc>>)

  datatype GuardedValue = GuardedValue(checks: seq<CheckFunc>, valueOverride: Val)

  /** A compiled value: a constant, or the first condition that passes, else a fallback. */
  datatype ValueProc = ValueConst(value: Val) | FirstMatch(conditions: seq<GuardedValue>, fallback: Val)

  // ---------------------------------------------------------------------------
  // Wildcard patterns

  /** strings.Split(s, "*"). */
  function SplitStar(s: string): (parts: seq<string>)
    ensures |parts| >= 1
    decreases |s|
  {
    if |s| == 0 then [""]
    else
      var rest := SplitStar(s[1..]);
      if s[0] == '*' then [""] + rest
      else [[s[0]] + rest[0]] + rest[1..]
  }

  /** strings.Join(parts, "*"), the inverse of SplitStar. */
  function JoinStar(parts: seq<string>): string
    requires |parts| >= 1
  {
    if |parts| == 1 then parts[0] else parts[0] + "*" + JoinStar(parts[1..])
  }

  predicate NoStar(s: string)
  {
    forall k :: 0 <= k < |s| ==> s[k] != '*'
  }

  predicate NoNewline(s: string)
  {
    forall k :: 0 <= k < |s| ==> s[k] != '\n'
  }

  /**
   * Whether s matches the anchored expression `^p0(?:.*)p1...(?:.*)pn$`
   * that opWildcard builds from the quoted parts: the parts verbatim, in
   * order, with a run between consecutive parts in which `.` may not match
   * a line feed.
   */
  predicate GlobMatch(parts: seq<string>, s: string)
    decreases |parts|, 0
  {
    if |parts| == 0 then false
    else if |parts| == 1 then s == parts[0]
    else
      |parts[0]| <= |s| && s[..|parts[0]|] == parts[0]
      && GapThen(parts[1..], s[|parts[0]|..], 0)
  }

  /** Whether some newline-free run t[i..j] is followed by a match of parts on t[j..]. */
  predicate GapThen(parts: seq<string>, t: string, i: nat)
    requires i <= |t|
    decreases |parts|, |t| - i + 1
  {
    GlobMatch(parts, t[i..]) || (i < |t| && t[i] != '\n' && GapThen(parts, t, i + 1))
  }

  // ---------------------------------------------------------------------------
  // Compiling checks (checkProc and the opX constructors)

  /** regexp.Compile failing gives the constant-false closure. */
  function RegexpOf(name: string, pattern: string, rt: Runtime): CheckFunc
  {
    if rt.regexCompiles(pattern) then Regexp(name, pattern) else Never
  }

  function SubsetOf(name: string, value: Val, rt: Runtime): CheckFunc
  {
    match StringsOf(value, rt)
    case Some(xs) => if |xs| == 0 then Never else Subset(name, SetOf(xs))
    case None => Never
  }

  function SupersetOf(name: string, value: Val, rt: Runtime): CheckFunc
  {
    match StringsOf(value, rt)
    case Some(xs) => if |xs| == 0 then Never else Superset(name, xs)
    case None => Never
  }

  /** checkProc: a nil literal or an unknown operator compiles to Never. */
  function CompileCheck(check: Check, rt: Runtime): CheckFunc
  {
    var name := check.variable.name;
    var value := check.value;
    if value.VNil? then Never
    else if check.operator == OpEqual then Equal(name, value)
    else if check.operator == OpLessThan then Compare(Lt, name, value)
    else if check.operator == OpLessOrEqual then Compare(Le, name, value)
    else if check.operator == OpGreaterThan then Compare(Gt, name, value)
    else if check.operator == OpGreaterOrEqual then Compare(Ge, name, value)
    else if check.operator == OpContains then Contains(name, ToStr(value, rt))
    else if check.operator == OpPercent then
      (match ToFloat64(value) case Some(t) => Percent(name, t) case None => Never)
    else if check.operator == OpRegexp then RegexpOf(name, ToStr(value, rt), rt)
    else if check.operator == OpWildcard then Wildcard(name, SplitStar(ToStr(value, rt)))
    else if check.operator == OpSubset then SubsetOf(name, value, rt)
    else if check.operator == OpSuperset then SupersetOf(name, value, rt)
    else Never
  }

  // ---------------------------------------------------------------------------
  // Evaluating checks (the closures' bodies)

  predicate NumCompare(cmp: Cmp, x: real, y: real)
  {
    match cmp
    case Lt => x < y
    case Le => x <= y
    case Gt => x > y
    case Ge => x >= y
  }

  predicate StrCompare(cmp: Cmp, a: string, b: string)
  {
    match cmp
    case Lt => LexLess(a, b)
    case Le => a == b || LexLess(a, b)
    case Gt => LexLess(b, a)
    case Ge => a == b || LexLess(b, a)
  }

  /** Numeric comparison when both sides have a numeric reading, else string comparison. */
  predicate Compares(cmp: Cmp, ctxVal: Val, literal: Val, rt: Runtime)
  {
    var x := ToFloat64(ctxVal);
    var y := ToFloat64(literal);
    if x.Some? && y.Some? then NumCompare(cmp, x.value, y.value)
    else StrCompare(cmp, ToStr(ctxVal, rt), ToStr(literal, rt))
  }

  predicate OccursAt(needle: string, hay: string, k: nat)
  {
    k + |needle| <= |hay| && hay[k..k + |needle|] == needle
  }

  /** strings.Contains(hay, needle). */
  predicate IsSubstring(needle: string, hay: string)
  {
    exists k: nat :: k <= |hay| && OccursAt(needle, hay, k)
  }

  /** hashFlagValue: MD5 over fmt.Sprintf("%s%v", name, value). */
  function HashFlagValue(name: string, value: Val, rt: Runtime): Uint32
  {
    rt.md5Tail(name + ToStr(value, rt))
  }

  predicate EvalCheck(c: CheckFunc, ctx: Context, rt: Runtime)
  {
    match c
    case Never => false
    case Equal(n, lit) => n in ctx && ctx[n] == lit
    case Compare(cmp, n, lit) => n in ctx && Compares(cmp, ctx[n], lit, rt)
    case Contains(n, needle) => n in ctx && IsSubstring(needle, ToStr(ctx[n], rt))
    case Percent(n, t) => n in ctx && HashFlagValue(n, ctx[n], rt) % 100 < Trunc(t)
    case Regexp(n, pat) => n in ctx && rt.regexFind(pat, ToStr(ctx[n], rt))
    case Wildcard(n, parts) => n in ctx && GlobMatch(parts, ToStr(ctx[n], rt))
    case Subset(n, allowed) =>
      n in ctx && StringsOf(ctx[n], rt).Some?
      && var xs := StringsOf(ctx[n], rt).value;
         |xs| > 0 && forall k :: 0 <= k < |xs| ==> xs[k] in allowed
    case Superset(n, required) =>
      n in ctx && StringsOf(ctx[n], rt).Some?
      && var xs := StringsOf(ctx[n], rt).value;
         |xs| > 0 && forall k :: 0 <= k < |required| ==> required[k] in xs
  }

  /** AND of a condition's checks. */
  predicate AllPass(checks: seq<CheckFunc>, ctx: Context, rt: Runtime)
  {
    forall k :: 0 <= k < |checks| ==> EvalCheck(checks[k], ctx, rt)
  }

  /** OR over conditions. */
  predicate AnyPasses(conditions: seq<seq<CheckFunc>>, ctx: Context, rt: Runtime)
  {
    exists k :: 0 <= k < |conditions| && AllPass(conditions[k], ctx, rt)
  }

  /** The index of the first condition at or after `from` whose checks all pass. */
  function FirstPassing(conditions: seq<GuardedValue>, ctx: Context, rt: Runtime, from: nat): (r: Option<nat>)
    requires from <= |conditions|
    ensures r.Some? ==> from <= r.value < |conditions| && AllPass(conditions[r.value].checks, ctx, rt)
    ensures r.Some? ==> forall j :: from <= j < r.value ==> !AllPass(conditions[j].checks, ctx, rt)
    ensures r.None? ==> forall j :: from <= j < |conditions| ==> !AllPass(conditions[j].checks, ctx, rt)
    decreases |conditions| - from
  {
    if from == |conditions| then None
    else if AllPass(conditions[from].checks, ctx, rt) then Some(from)
    else FirstPassing(conditions, ctx, rt, from + 1)
  }

  predicate EvalFlagProc(fp: FlagProc, ctx: Context, rt: Runtime)
  {
    match fp
    case FlagConst(b) => b
    case AnyOf(cs) => AnyPasses(cs, ctx, rt)
  }

  function EvalValueProc(vp: ValueProc, ctx: Context, rt: Runtime): Val
  {
    match vp
    case ValueConst(v) => v
    case FirstMatch(cs, fallback) =>
      match FirstPassing(cs, ctx, rt, 0)
      case Some(k) => cs[k].valueOverride
      case None => fallback
  }

  // ---------------------------------------------------------------------------
  // Compiling flags and values (flagProc and valueProc)

  /** A condition's compiled checks; a condition without checks becomes [Never]. */
  function CompileChecks(checks: seq<Check>, rt: Runtime): seq<CheckFunc>
  {
    if |checks| == 0 then [Never]
    else seq(|checks|, k requires 0 <= k < |checks| => CompileCheck(checks[k], rt))
  }

  function CompileFlagConditions(conditions: seq<Condition>, rt: Runtime): seq<seq<CheckFunc>>
  {
    seq(|conditions|, k requires 0 <= k < |conditions| => CompileChecks(conditions[k].checks, rt))
  }

  function CompileValueConditions(conditions: seq<ValueCondition>, rt: Runtime): seq<GuardedValue>
  {
    seq(|conditions|, k requires 0 <= k < |conditions| =>
      GuardedValue(CompileChecks(conditions[k].checks, rt), conditions[k].valueOverride))
  }

  /** flagProc: None stands for the nil proc of a flag the server does not override. */
  function CompileFlag(flag: FlagResponse, rt: Runtime): Option<FlagProc>
  {
    if !flag.overridden then None
    else if flag.enabled && |flag.conditions| > 0 then
      Some(AnyOf(CompileFlagConditions(flag.conditions, rt)))
    else Some(FlagConst(flag.enabled))
  }

  /** valueProc. */
  function CompileValue(value: ValueResponse, rt: Runtime): ValueProc
  {
    if !value.overridden then ValueConst(value.valueDefault)
    else if value.enabled && |value.conditions| > 0 then
      FirstMatch(CompileValueConditions(value.conditions, rt), value.valueOverride)
    else ValueConst(value.valueOverride)
  }

  // ---------------------------------------------------------------------------
  // The source's loops

  /** The inner `append` loop of flagProc and valueProc, with the empty-condition guard. */
  method BuildChecks(checks: seq<Check>, rt: Runtime) returns (fs: seq<CheckFunc>)
    ensures fs == CompileChecks(checks, rt)
  {
    fs := [];
    for i := 0 to |checks|
      invariant fs == seq(i, k requires 0 <= k < i => CompileCheck(checks[k], rt))
    {
      fs := fs + [CompileCheck(checks[i], rt)];
    }
    if |fs| == 0 {
      fs := [Never];
    }
  }

  /** flagProc: builds the condition list, then picks the closure. */
  method BuildFlagProc(flag: FlagResponse, rt: Runtime) returns (fp: Option<FlagProc>)
    ensures fp == CompileFlag(flag, rt)
  {
    if !flag.overridden {
      return None;
    }
    var conditions: seq<seq<CheckFunc>> := [];
    for i := 0 to |flag.conditions|
      invariant conditions == CompileFlagConditions(flag.conditions[..i], rt)
    {
      var checks := BuildChecks(flag.conditions[i].checks, rt);
      assert flag.conditions[..i + 1] == flag.conditions[..i] + [flag.conditions[i]];
      conditions := conditions + [checks];
    }
    assert flag.conditions[..|flag.conditions|] == flag.conditions;
    if flag.enabled && |conditions| > 0 {
      fp := Some(AnyOf(conditions));
    } else {
      fp := Some(FlagConst(flag.enabled));
    }
  }

  /** valueProc: builds the guarded values, then picks the closure. */
  method BuildValueProc(value: ValueResponse, rt: Runtime) returns (vp: ValueProc)
    ensures vp == CompileValue(value, rt)
  {
    if !value.overridden {
      return ValueConst(value.valueDefault);
    }
    var conditions: seq<GuardedValue> := [];
    for i := 0 to |value.conditions|
      invariant conditions == CompileValueConditions(value.conditions[..i], rt)
    {
      var checks := BuildChecks(value.conditions[i].checks, rt);
      assert value.conditions[..i + 1] == value.conditions[..i] + [value.conditions[i]];
      conditions := conditions + [GuardedValue(checks, value.conditions[i].valueOverride)];
    }
    assert value.conditions[..|value.conditions|] == value.conditions;
    if value.enabled && |conditions| > 0 {
      vp := FirstMatch(conditions, value.valueOverride);
    } else {
      vp := ValueConst(value.valueOverride);
    }
  }

  /** Calls one compiled check; Subset and Superset run the source's early-return scans. */
  method RunCheck(c: CheckFunc, ctx: Context, rt: Runtime) returns (ok: bool)
    ensures ok == EvalCheck(c, ctx, rt)
  {
    match c
    case Subset(n, allowed) =>
      if n !in ctx {
        return false;
      }
      var xs := ToStringSlice(ctx[n], rt);
      if xs.None? || |xs.value| == 0 {
        return false;
      }
      for i := 0 to |xs.value|
        invariant forall k :: 0 <= k < i ==> xs.value[k] in allowed
      {
        if xs.value[i] !in allowed {
          return false;
        }
      }
      ok := true;
    case Superset(n, required) =>
      if n !in ctx {
        return false;
      }
      var xs := ToStringSlice(ctx[n], rt);
      if xs.None? || |xs.value| == 0 {
        return false;
      }
      var ctxSet := ToSet(xs.value);
      for i := 0 to |required|
        invariant forall k :: 0 <= k < i ==> required[k] in xs.value
      {
        if required[i] !in ctxSet {
          return false;
        }
      }
      ok := true;
    case _ =>
      ok := EvalCheck(c, ctx, rt);
  }

  /** The `allPass` loop: stops at the first check that fails. */
  method RunChecks(checks: seq<CheckFunc>, ctx: Context, rt: Runtime) returns (allPass: bool)
    ensures allPass == AllPass(checks, ctx, rt)
  {
    allPass := true;
    var i := 0;
    while i < |checks|
      invariant 0 <= i <= |checks|
      invariant forall k :: 0 <= k < i ==> EvalCheck(checks[k], ctx, rt)
    {
      var ok := RunCheck(checks[i], ctx, rt);
      if !ok {
        allPass := false;
        break;
      }
      i := i + 1;
    }
  }

  /** Calls a compiled flag: true at the first condition whose checks all pass. */
  method RunFlagProc(fp: FlagProc, ctx: Context, rt: Runtime) returns (b: bool)
    ensures b == EvalFlagProc(fp, ctx, rt)
  {
    match fp
    case FlagConst(e) =>
      b := e;
    case AnyOf(conditions) =>
      for i := 0 to |conditions|
        invariant forall k :: 0 <= k < i ==> !AllPass(conditions[k], ctx, rt)
      {
        var allPass := RunChecks(conditions[i], ctx, rt);
        if allPass {
          return true;
        }
      }
      b := false;
  }

  /** Calls a compiled value: the override of the first passing condition, else the fallback. */
  method RunValueProc(vp: ValueProc, ctx: Context, rt: Runtime) returns (v: Val)
    ensures v == EvalValueProc(vp, ctx, rt)
  {
    match vp
    case ValueConst(c) =>
      v := c;
    case FirstMatch(conditions, fallback) =>
      for i := 0 to |conditions|
        invariant forall k :: 0 <= k < i ==> !AllPass(conditions[k].checks, ctx, rt)
      {
        var allPass := RunChecks(conditions[i].checks, ctx, rt);
        if allPass {
          return conditions[i].valueOverride;
        }
      }
      v := fallback;
  }
}
