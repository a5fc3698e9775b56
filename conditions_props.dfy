/**
 * What the condition interpreter promises: the operators fail closed, the
 * ordering operators follow the numeric-then-string rule, percent rollout
 * is bounded by its threshold, set and wildcard operators mean what their
 * names say, and compiled flags and values are an OR of ANDs and a
 * first-match choice respectively.
 */
module ConditionsProps {
  import opened Dynamic
  import opened Conditions

  /** A wire condition holds: it has checks and every compiled check passes. */
  predicate ConditionHolds(checks: seq<Check>, ctx: Context, rt: Runtime)
  {
    |checks| > 0 && forall j :: 0 <= j < |checks| ==> EvalCheck(CompileCheck(checks[j], rt), ctx, rt)
  }

  // ---------------------------------------------------------------------------
  // checkProc

  /** Every compiled check is false when its variable is missing from the context. */
  lemma FailClosed(check: Check, ctx: Context, rt: Runtime)
    requires check.variable.name !in ctx
    ensures !EvalCheck(CompileCheck(check, rt), ctx, rt)
  {
  }

  /** A nil literal or an operator code outside 1..11 compiles to the constant-false check. */
  lemma NilOrUnknownIsNever(check: Check, ctx: Context, rt: Runtime)
    requires check.value.VNil? || check.operator < OpEqual || check.operator > OpSuperset
    ensures CompileCheck(check, rt) == Never
    ensures !EvalCheck(CompileCheck(check, rt), ctx, rt)
  {
  }

  /** A compiled check reads the context only at its own variable. */
  lemma CheckReadsOnlyItsVariable(check: Check, ctx1: Context, ctx2: Context, rt: Runtime)
    requires var n := check.variable.name; (n in ctx1 <==> n in ctx2) && (n in ctx1 ==> ctx1[n] == ctx2[n])
    ensures EvalCheck(CompileCheck(check, rt), ctx1, rt) == EvalCheck(CompileCheck(check, rt), ctx2, rt)
  {
    var n := check.variable.name;
    if n in ctx1 {
      assert ctx1[n] == ctx2[n];
    }
  }

  // ---------------------------------------------------------------------------
  // Equal and Contains

  /** Equal: the same variant with the same payload; no coercion between int and float. */
  lemma EqualMeaning(v: CheckVariable, literal: Val, ctx: Context, rt: Runtime)
    requires !literal.VNil?
    ensures EvalCheck(CompileCheck(Check(OpEqual, v, literal), rt), ctx, rt)
            <==> v.name in ctx && ctx[v.name] == literal
  {
  }

  lemma EqualDoesNotCoerce(name: string, rt: Runtime)
    ensures !EvalCheck(CompileCheck(Check(OpEqual, CheckVariable(name, TypeNumber), VReal(123.0)), rt),
                       map[name := VInt(123)], rt)
  {
  }

  /** Contains: the literal's string form occurs in the context value's string form. */
  lemma ContainsMeaning(v: CheckVariable, literal: Val, ctx: Context, rt: Runtime)
    requires !literal.VNil?
    ensures EvalCheck(CompileCheck(Check(OpContains, v, literal), rt), ctx, rt)
            <==> v.name in ctx && exists k: nat :: OccursAt(ToStr(literal, rt), ToStr(ctx[v.name], rt), k)
  {
    var c := CompileCheck(Check(OpContains, v, literal), rt);
    if v.name in ctx && EvalCheck(c, ctx, rt) {
      var k: nat :| k <= |ToStr(ctx[v.name], rt)| && OccursAt(ToStr(literal, rt), ToStr(ctx[v.name], rt), k);
    }
    if v.name in ctx && exists k: nat :: OccursAt(ToStr(literal, rt), ToStr(ctx[v.name], rt), k) {
      var k: nat :| OccursAt(ToStr(literal, rt), ToStr(ctx[v.name], rt), k);
      assert k <= |ToStr(ctx[v.name], rt)|;
    }
  }

  // ---------------------------------------------------------------------------
  // The ordering operators

  /** Numbers compare numerically; as soon as either side is not a number, string forms compare. */
  lemma OrderingMeaning(check: Check, ctx: Context, rt: Runtime)
    requires OpLessThan <= check.operator <= OpGreaterOrEqual && !check.value.VNil?
    requires check.variable.name in ctx
    ensures var r := EvalCheck(CompileCheck(check, rt), ctx, rt);
            var c := ctx[check.variable.name];
            var lit := check.value;
            var x := ToFloat64(c);
            var y := ToFloat64(lit);
            var a := ToStr(c, rt);
            var b := ToStr(lit, rt);
            && (x.Some? && y.Some? ==>
                  (check.operator == OpLessThan ==> (r <==> x.value < y.value))
                  && (check.operator == OpLessOrEqual ==> (r <==> x.value <= y.value))
                  && (check.operator == OpGreaterThan ==> (r <==> x.value > y.value))
                  && (check.operator == OpGreaterOrEqual ==> (r <==> x.value >= y.value)))
            && (!(x.Some? && y.Some?) ==>
                  (check.operator == OpLessThan ==> (r <==> LexLess(a, b)))
                  && (check.operator == OpLessOrEqual ==> (r <==> !LexLess(b, a)))
                  && (check.operator == OpGreaterThan ==> (r <==> LexLess(b, a)))
                  && (check.operator == OpGreaterOrEqual ==> (r <==> !LexLess(a, b))))
  {
    LexLessTotal(ToStr(ctx[check.variable.name], rt), ToStr(check.value, rt));
  }

  /** The strict operators reject equal values and the OrEqual variants accept them. */
  lemma OrderingOnEqualValues(v: CheckVariable, literal: Val, ctx: Context, rt: Runtime)
    requires !literal.VNil? && v.name in ctx && ctx[v.name] == literal
    ensures !EvalCheck(CompileCheck(Check(OpLessThan, v, literal), rt), ctx, rt)
    ensures !EvalCheck(CompileCheck(Check(OpGreaterThan, v, literal), rt), ctx, rt)
    ensures EvalCheck(CompileCheck(Check(OpLessOrEqual, v, literal), rt), ctx, rt)
    ensures EvalCheck(CompileCheck(Check(OpGreaterOrEqual, v, literal), rt), ctx, rt)
  {
    LexLessIrreflexive(ToStr(literal, rt));
  }

  /** For a present variable, LessOrEqual is the negation of GreaterThan and GreaterOrEqual of LessThan. */
  lemma OrEqualNegatesStrict(v: CheckVariable, literal: Val, ctx: Context, rt: Runtime)
    requires !literal.VNil? && v.name in ctx
    ensures EvalCheck(CompileCheck(Check(OpLessOrEqual, v, literal), rt), ctx, rt)
            == !EvalCheck(CompileCheck(Check(OpGreaterThan, v, literal), rt), ctx, rt)
    ensures EvalCheck(CompileCheck(Check(OpGreaterOrEqual, v, literal), rt), ctx, rt)
            == !EvalCheck(CompileCheck(Check(OpLessThan, v, literal), rt), ctx, rt)
  {
    LexLessTotal(ToStr(ctx[v.name], rt), ToStr(literal, rt));
  }

  // ---------------------------------------------------------------------------
  // Percent

  /** A threshold without a numeric reading gives the constant-false check. */
  lemma PercentNonNumeric(v: CheckVariable, literal: Val, ctx: Context, rt: Runtime)
    requires ToFloat64(literal).None?
    ensures !EvalCheck(CompileCheck(Check(OpPercent, v, literal), rt), ctx, rt)
  {
  }

  /**
   * A numeric threshold (int or float) below 1 admits nobody; one of 100 or
   * more admits every present value.
   */
  lemma PercentBounds(v: CheckVariable, literal: Val, ctx: Context, rt: Runtime)
    requires ToFloat64(literal).Some?
    ensures ToFloat64(literal).value < 1.0 ==>
      !EvalCheck(CompileCheck(Check(OpPercent, v, literal), rt), ctx, rt)
    ensures ToFloat64(literal).value >= 100.0 ==>
      (EvalCheck(CompileCheck(Check(OpPercent, v, literal), rt), ctx, rt) <==> v.name in ctx)
  {
    if ToFloat64(literal).value >= 100.0 {
      assert Trunc(ToFloat64(literal).value) >= 100;
    }
  }

  /** The rollout tests' thresholds: int 0 admits nobody, int 100 admits every present value. */
  lemma PercentTestThresholds(ctx: Context, rt: Runtime)
    ensures !EvalCheck(CompileCheck(Check(OpPercent, CheckVariable("user.id", TypeNumber), VInt(0)), rt), ctx, rt)
    ensures EvalCheck(CompileCheck(Check(OpPercent, CheckVariable("user.id", TypeNumber), VInt(100)), rt), ctx, rt)
            <==> "user.id" in ctx
  {
    PercentBounds(CheckVariable("user.id", TypeNumber), VInt(0), ctx, rt);
    PercentBounds(CheckVariable("user.id", TypeNumber), VInt(100), ctx, rt);
  }

  /** The rollout decision for a present value is a function of (name, value) alone. */
  lemma PercentIsDeterministic(v: CheckVariable, threshold: Val, ctx1: Context, ctx2: Context, rt: Runtime)
    requires v.name in ctx1 && v.name in ctx2 && ctx1[v.name] == ctx2[v.name]
    ensures EvalCheck(CompileCheck(Check(OpPercent, v, threshold), rt), ctx1, rt)
            == EvalCheck(CompileCheck(Check(OpPercent, v, threshold), rt), ctx2, rt)
  {
  }

  // ---------------------------------------------------------------------------
  // Regexp

  /** A pattern that does not compile gives the constant-false check; otherwise the matcher decides. */
  lemma RegexpMeaning(v: CheckVariable, literal: Val, ctx: Context, rt: Runtime)
    requires !literal.VNil?
    ensures var pattern := ToStr(literal, rt);
            EvalCheck(CompileCheck(Check(OpRegexp, v, literal), rt), ctx, rt)
            <==> rt.regexCompiles(pattern) && v.name in ctx && rt.regexFind(pattern, ToStr(ctx[v.name], rt))
  {
  }

  // ---------------------------------------------------------------------------
  // Subset and Superset

  /** Subset: both lists non-empty and every context element is in the literal list. */
  lemma SubsetMeaning(v: CheckVariable, literal: Val, ctx: Context, rt: Runtime)
    requires !literal.VNil?
    ensures EvalCheck(CompileCheck(Check(OpSubset, v, literal), rt), ctx, rt)
            <==> StringsOf(literal, rt).Some? && |StringsOf(literal, rt).value| > 0
                 && v.name in ctx && StringsOf(ctx[v.name], rt).Some? && |StringsOf(ctx[v.name], rt).value| > 0
                 && forall x :: x in StringsOf(ctx[v.name], rt).value ==> x in StringsOf(literal, rt).value
  {
  }

  /** Superset: the same with the roles of the literal and the context swapped. */
  lemma SupersetMeaning(v: CheckVariable, literal: Val, ctx: Context, rt: Runtime)
    requires !literal.VNil?
    ensures EvalCheck(CompileCheck(Check(OpSuperset, v, literal), rt), ctx, rt)
            <==> StringsOf(literal, rt).Some? && |StringsOf(literal, rt).value| > 0
                 && v.name in ctx && StringsOf(ctx[v.name], rt).Some? && |StringsOf(ctx[v.name], rt).value| > 0
                 && forall x :: x in StringsOf(literal, rt).value ==> x in StringsOf(ctx[v.name], rt).value
  {
    var c := CompileCheck(Check(OpSuperset, v, literal), rt);
    if EvalCheck(c, ctx, rt) {
      var req := StringsOf(literal, rt).value;
      assert forall x :: x in req ==> exists k :: 0 <= k < |req| && req[k] == x;
    }
  }

  lemma SetOperatorExamples(rt: Runtime)
    ensures EvalCheck(CompileCheck(Check(OpSubset, CheckVariable("roles", TypeSet),
                        VList([VStr("admin"), VStr("user"), VStr("guest")])), rt),
                      map["roles" := VStrList(["admin", "user"])], rt)
    ensures !EvalCheck(CompileCheck(Check(OpSubset, CheckVariable("roles", TypeSet), VList([VStr("admin")])), rt),
                       map["roles" := VStrList(["admin", "user"])], rt)
    ensures EvalCheck(CompileCheck(Check(OpSuperset, CheckVariable("roles", TypeSet), VList([VStr("admin")])), rt),
                      map["roles" := VStrList(["admin", "user", "guest"])], rt)
    ensures !EvalCheck(CompileCheck(Check(OpSubset, CheckVariable("roles", TypeSet), VList([])), rt),
                       map["roles" := VStrList(["admin"])], rt)
  {
    var allowed := StringsOf(VList([VStr("admin"), VStr("user"), VStr("guest")]), rt).value;
    assert allowed == ["admin", "user", "guest"];
    var one := StringsOf(VList([VStr("admin")]), rt).value;
    assert one == ["admin"];
    assert StringsOf(VStrList(["admin", "user"]), rt).value[1] == "user";
    assert "user" !in SetOf(one);
  }

  // ---------------------------------------------------------------------------
  // Wildcard

  /** Splitting on `*` and joining back returns the pattern; no part holds a `*`. */
  lemma {:induction false} SplitJoin(s: string)
    ensures JoinStar(SplitStar(s)) == s
    ensures forall k :: 0 <= k < |SplitStar(s)| ==> NoStar(SplitStar(s)[k])
  {
    if |s| > 0 {
      SplitJoin(s[1..]);
      var rest := SplitStar(s[1..]);
      if s[0] == '*' {
        assert SplitStar(s) == [""] + rest;
        assert (([""] + rest)[1..]) == rest;
        assert s == [s[0]] + s[1..];
      } else {
        var parts := SplitStar(s);
        assert parts == [[s[0]] + rest[0]] + rest[1..];
        if |rest| == 1 {
          assert s == [s[0]] + rest[0];
        } else {
          assert parts[1..] == rest[1..];
          assert JoinStar(rest) == rest[0] + "*" + JoinStar(rest[1..]);
          assert s == [s[0]] + s[1..];
        }
        assert NoStar(parts[0]) by {
          assert NoStar(rest[0]);
        }
        forall k | 1 <= k < |parts|
          ensures NoStar(parts[k])
        {
          assert parts[k] == rest[k];
        }
      }
    }
  }

  /** A pattern without `*` splits into itself alone. */
  lemma {:induction false} SplitWithoutStar(s: string)
    requires NoStar(s)
    ensures SplitStar(s) == [s]
  {
    if |s| > 0 {
      SplitWithoutStar(s[1..]);
      assert s == [s[0]] + s[1..];
    }
  }

  /** GapThen searches exactly the newline-free runs t[i..j] followed by a match on t[j..]. */
  lemma {:induction false} GapThenMeaning(parts: seq<string>, t: string, i: nat)
    requires i <= |t|
    ensures GapThen(parts, t, i) <==> exists j :: i <= j <= |t| && NoNewline(t[i..j]) && GlobMatch(parts, t[j..])
    decreases |t| - i
  {
    if GlobMatch(parts, t[i..]) {
      assert NoNewline(t[i..i]);
    } else if i < |t| && t[i] != '\n' {
      GapThenMeaning(parts, t, i + 1);
      if GapThen(parts, t, i + 1) {
        var j :| i + 1 <= j <= |t| && NoNewline(t[i + 1..j]) && GlobMatch(parts, t[j..]);
        assert t[i..j] == [t[i]] + t[i + 1..j];
      }
      if exists j :: i <= j <= |t| && NoNewline(t[i..j]) && GlobMatch(parts, t[j..]) {
        var j :| i <= j <= |t| && NoNewline(t[i..j]) && GlobMatch(parts, t[j..]);
        assert j != i;
        var u, w := t[i + 1..j], t[i..j];
        forall k | 0 <= k < |u|
          ensures u[k] != '\n'
        {
          assert u[k] == w[k + 1];
        }
      }
    } else {
      if exists j :: i <= j <= |t| && NoNewline(t[i..j]) && GlobMatch(parts, t[j..]) {
        var j :| i <= j <= |t| && NoNewline(t[i..j]) && GlobMatch(parts, t[j..]);
        assert j != i;
        assert t[i..j][0] == t[i];
      }
    }
  }

  /** A wildcard pattern without `*` matches only the identical string. */
  lemma WildcardWithoutStar(v: CheckVariable, pattern: string, ctx: Context, rt: Runtime)
    requires NoStar(pattern)
    ensures EvalCheck(CompileCheck(Check(OpWildcard, v, VStr(pattern)), rt), ctx, rt)
            <==> v.name in ctx && ToStr(ctx[v.name], rt) == pattern
  {
    SplitWithoutStar(pattern);
  }

  /** With one `*`: a prefix, a newline-free middle of any length, a suffix. */
  lemma WildcardOneStar(v: CheckVariable, prefix: string, suffix: string, ctx: Context, rt: Runtime)
    requires NoStar(prefix) && NoStar(suffix)
    ensures EvalCheck(CompileCheck(Check(OpWildcard, v, VStr(prefix + "*" + suffix)), rt), ctx, rt)
            <==> v.name in ctx && GlobTwoPartsHolds(prefix, suffix, ToStr(ctx[v.name], rt))
  {
    SplitParts(prefix, suffix);
    if v.name in ctx {
      GlobTwoParts(prefix, suffix, ToStr(ctx[v.name], rt));
    }
  }

  /** `*@example.com` matches user@example.com. */
  lemma WildcardExampleMatches(rt: Runtime)
    ensures EvalCheck(CompileCheck(Check(OpWildcard, CheckVariable("email", TypeString), VStr("*@example.com")), rt),
                      map["email" := VStr("user@example.com")], rt)
  {
    var pattern := "" + "*" + "@example.com";
    assert pattern == "*@example.com";
    var ctx: Context := map["email" := VStr("user@example.com")];
    WildcardOneStar(CheckVariable("email", TypeString), "", "@example.com", ctx, rt);
    var s := "user@example.com";
    assert s[0..] == s;
    assert s[|s| - 12..] == "@example.com";
    assert s[..|s| - 12] == "user";
    assert GlobTwoPartsHolds("", "@example.com", s);
  }

  /** `*@example.com` does not match user@other.com. */
  lemma WildcardExampleRejects(rt: Runtime)
    ensures !EvalCheck(CompileCheck(Check(OpWildcard, CheckVariable("email", TypeString), VStr("*@example.com")), rt),
                       map["email" := VStr("user@other.com")], rt)
  {
    var pattern := "" + "*" + "@example.com";
    assert pattern == "*@example.com";
    var ctx: Context := map["email" := VStr("user@other.com")];
    WildcardOneStar(CheckVariable("email", TypeString), "", "@example.com", ctx, rt);
    var s := "user@other.com";
    assert s[0..] == s;
    assert s[|s| - 12..][0] == 'e';
    assert !GlobTwoPartsHolds("", "@example.com", s);
  }

  /**
   * The gap `(?:.*)` does not cross a line feed: `a*b` rejects "a\nb" although
   * it accepts "axb".
   */
  lemma WildcardGapStopsAtLineFeed(rt: Runtime)
    ensures !EvalCheck(CompileCheck(Check(OpWildcard, CheckVariable("s", TypeString), VStr("a*b")), rt),
                       map["s" := VStr("a\nb")], rt)
    ensures EvalCheck(CompileCheck(Check(OpWildcard, CheckVariable("s", TypeString), VStr("a*b")), rt),
                      map["s" := VStr("axb")], rt)
  {
    assert "a" + "*" + "b" == "a*b";
    WildcardOneStar(CheckVariable("s", TypeString), "a", "b", map["s" := VStr("a\nb")], rt);
    WildcardOneStar(CheckVariable("s", TypeString), "a", "b", map["s" := VStr("axb")], rt);
    var bad := "a\nb";
    assert bad[1..][..1][0] == '\n';
    var good := "axb";
    assert good[..1] == "a" && good[1..] == "xb";
    assert "xb"[1..] == "b" && "xb"[..1] == "x";
  }

  /**
   * The wildcard as its documentation describes it: `*` matches any sequence
   * of characters, line feeds included.  The code's GlobMatch differs only on
   * strings that contain a line feed.
   */
  predicate DocGlobMatch(parts: seq<string>, s: string)
    decreases |parts|, 0
  {
    if |parts| == 0 then false
    else if |parts| == 1 then s == parts[0]
    else
      |parts[0]| <= |s| && s[..|parts[0]|] == parts[0]
      && DocGapThen(parts[1..], s[|parts[0]|..], 0)
  }

  /** Whether some run t[i..j], of any characters, is followed by a match of parts on t[j..]. */
  predicate DocGapThen(parts: seq<string>, t: string, i: nat)
    requires i <= |t|
    decreases |parts|, |t| - i + 1
  {
    DocGlobMatch(parts, t[i..]) || (i < |t| && DocGapThen(parts, t, i + 1))
  }

  /** On a string without line feeds the code and its documentation agree. */
  lemma {:induction false} GlobMatchAgreesWithDoc(parts: seq<string>, s: string)
    requires NoNewline(s)
    ensures GlobMatch(parts, s) <==> DocGlobMatch(parts, s)
    decreases |parts|, 0
  {
    if |parts| > 1 && |parts[0]| <= |s| {
      var t := s[|parts[0]|..];
      assert forall k :: 0 <= k < |t| ==> t[k] == s[|parts[0]| + k];
      GapThenAgreesWithDoc(parts[1..], t, 0);
    }
  }

  lemma {:induction false} GapThenAgreesWithDoc(parts: seq<string>, t: string, i: nat)
    requires i <= |t| && NoNewline(t)
    ensures GapThen(parts, t, i) <==> DocGapThen(parts, t, i)
    decreases |parts|, |t| - i + 1
  {
    assert forall k :: 0 <= k < |t[i..]| ==> t[i..][k] == t[i + k];
    GlobMatchAgreesWithDoc(parts, t[i..]);
    if i < |t| {
      GapThenAgreesWithDoc(parts, t, i + 1);
    }
  }

  /** Where they differ: the documented `a*b` matches "a\nb", the code's does not. */
  lemma DocGlobDiffersOnLineFeed()
    ensures DocGlobMatch(["a", "b"], "a\nb")
    ensures !GlobMatch(["a", "b"], "a\nb")
  {
    var s := "a\nb";
    assert s[..1] == "a";
    var t := s[1..];
    assert t == "\nb";
    assert t[1..] == "b";
    assert DocGapThen(["b"], t, 1);
    assert ["a", "b"][1..] == ["b"];
    GlobTwoParts("a", "b", s);
    assert s[1..][..1][0] == '\n';
  }

  /** s starts with prefix, and the rest ends with suffix with no line feed in between. */
  predicate GlobTwoPartsHolds(prefix: string, suffix: string, s: string)
  {
    |prefix| <= |s| && s[..|prefix|] == prefix &&
    var t := s[|prefix|..];
    |suffix| <= |t| && t[|t| - |suffix|..] == suffix && NoNewline(t[..|t| - |suffix|])
  }

  lemma GlobTwoParts(prefix: string, suffix: string, s: string)
    ensures GlobMatch([prefix, suffix], s) <==> GlobTwoPartsHolds(prefix, suffix, s)
  {
    assert [prefix, suffix][1..] == [suffix];
    if |prefix| <= |s| && s[..|prefix|] == prefix {
      var t := s[|prefix|..];
      assert GlobMatch([prefix, suffix], s) == GapThen([suffix], t, 0);
      GapThenMeaning([suffix], t, 0);
      SuffixAfterGap(suffix, t);
    }
  }

  lemma SuffixAfterGap(suffix: string, t: string)
    ensures (exists j :: 0 <= j <= |t| && NoNewline(t[0..j]) && GlobMatch([suffix], t[j..]))
            <==> |suffix| <= |t| && t[|t| - |suffix|..] == suffix && NoNewline(t[..|t| - |suffix|])
  {
    if exists j :: 0 <= j <= |t| && NoNewline(t[0..j]) && GlobMatch([suffix], t[j..]) {
      var j :| 0 <= j <= |t| && NoNewline(t[0..j]) && GlobMatch([suffix], t[j..]);
      assert t[j..] == suffix;
      assert j == |t| - |suffix|;
      assert t[0..j] == t[..|t| - |suffix|];
    }
    if |suffix| <= |t| && t[|t| - |suffix|..] == suffix && NoNewline(t[..|t| - |suffix|]) {
      var j := |t| - |suffix|;
      assert t[0..j] == t[..|t| - |suffix|];
      assert GlobMatch([suffix], t[j..]);
    }
  }

  lemma {:induction false} SplitParts(prefix: string, suffix: string)
    requires NoStar(prefix) && NoStar(suffix)
    ensures SplitStar(prefix + "*" + suffix) == [prefix, suffix]
  {
    if |prefix| == 0 {
      assert prefix + "*" + suffix == ['*'] + suffix;
      assert (['*'] + suffix)[1..] == suffix;
      SplitWithoutStar(suffix);
    } else {
      SplitParts(prefix[1..], suffix);
      assert (prefix + "*" + suffix)[1..] == prefix[1..] + "*" + suffix;
      assert prefix == [prefix[0]] + prefix[1..];
    }
  }

  // ---------------------------------------------------------------------------
  // flagProc and valueProc

  /** A compiled condition passes iff the wire condition has checks and all of them pass. */
  lemma CompiledConditionMeaning(checks: seq<Check>, ctx: Context, rt: Runtime)
    ensures AllPass(CompileChecks(checks, rt), ctx, rt) <==> ConditionHolds(checks, ctx, rt)
  {
    if |checks| == 0 {
      assert !EvalCheck(CompileChecks(checks, rt)[0], ctx, rt);
    } else {
      var fs := CompileChecks(checks, rt);
      assert forall j :: 0 <= j < |checks| ==> fs[j] == CompileCheck(checks[j], rt);
    }
  }

  /**
   * flagProc: no proc unless overridden; constant `enabled` when disabled or
   * without conditions; otherwise the OR over conditions of the AND of their checks.
   */
  lemma FlagProcMeaning(flag: FlagResponse, ctx: Context, rt: Runtime)
    ensures CompileFlag(flag, rt).Some? <==> flag.overridden
    ensures flag.overridden && !(flag.enabled && |flag.conditions| > 0) ==>
              CompileFlag(flag, rt) == Some(FlagConst(flag.enabled))
    ensures flag.overridden && flag.enabled && |flag.conditions| > 0 ==>
              (EvalFlagProc(CompileFlag(flag, rt).value, ctx, rt)
               <==> exists i :: 0 <= i < |flag.conditions| && ConditionHolds(flag.conditions[i].checks, ctx, rt))
  {
    if flag.overridden && flag.enabled && |flag.conditions| > 0 {
      var cs := CompileFlagConditions(flag.conditions, rt);
      forall i | 0 <= i < |flag.conditions|
        ensures AllPass(cs[i], ctx, rt) <==> ConditionHolds(flag.conditions[i].checks, ctx, rt)
      {
        CompiledConditionMeaning(flag.conditions[i].checks, ctx, rt);
      }
    }
  }

  /** A condition without checks never makes a flag true. */
  lemma EmptyConditionNeverMatches(flag: FlagResponse, ctx: Context, rt: Runtime)
    requires flag.overridden && flag.enabled
    requires forall i :: 0 <= i < |flag.conditions| ==> |flag.conditions[i].checks| == 0
    requires |flag.conditions| > 0
    ensures !EvalFlagProc(CompileFlag(flag, rt).value, ctx, rt)
  {
    FlagProcMeaning(flag, ctx, rt);
  }

  /**
   * valueProc: the default when not overridden; otherwise the override of the
   * first condition, in order, that holds, and the base override when none
   * does or conditions are not considered.
   */
  lemma ValueProcMeaning(value: ValueResponse, ctx: Context, rt: Runtime)
    ensures var r := EvalValueProc(CompileValue(value, rt), ctx, rt);
            && (!value.overridden ==> r == value.valueDefault)
            && (value.overridden && !(value.enabled && |value.conditions| > 0) ==> r == value.valueOverride)
            && (value.overridden && value.enabled &&
                (forall i :: 0 <= i < |value.conditions| ==> !ConditionHolds(value.conditions[i].checks, ctx, rt))
                ==> r == value.valueOverride)
            && (forall i :: 0 <= i < |value.conditions| && value.overridden && value.enabled
                  && ConditionHolds(value.conditions[i].checks, ctx, rt)
                  && (forall j :: 0 <= j < i ==> !ConditionHolds(value.conditions[j].checks, ctx, rt))
                  ==> r == value.conditions[i].valueOverride)
  {
    if value.overridden && value.enabled && |value.conditions| > 0 {
      var cs := CompileValueConditions(value.conditions, rt);
      forall i | 0 <= i < |value.conditions|
        ensures AllPass(cs[i].checks, ctx, rt) <==> ConditionHolds(value.conditions[i].checks, ctx, rt)
        ensures cs[i].valueOverride == value.conditions[i].valueOverride
      {
        CompiledConditionMeaning(value.conditions[i].checks, ctx, rt);
      }
    }
  }
}
