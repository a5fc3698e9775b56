/**
 * Reading a flag (flags.go): the stored proc when there is one, else the
 * registered default, and false for a name never registered.
 */
module Flags {
  import opened Dynamic
  import opened Conditions
  import opened ConditionsProps
  import opened Client
  import opened ClientProps

  /** getFlagState over the flag map of a State. */
  function GetFlagState(flagState: map<string, FlagState>, name: string, ctx: Context, rt: Runtime): bool
  {
    if name !in flagState then false
    else match flagState[name].proc
      case Some(p) => EvalFlagProc(p, ctx, rt)
      case None => flagState[name].enabled
  }

  /** Get: looks the flag up and runs its compiled proc; it changes nothing. */
  method Get(flags: FeatureFlags, name: string, ctx: Context, rt: Runtime) returns (enabled: bool)
    ensures enabled == GetFlagState(flags.state.flagState, name, ctx, rt)
    ensures name !in flags.state.flagState ==> !enabled
  {
    var flagState := flags.state.flagState;
    if name !in flagState {
      return false;
    }
    var entry := flagState[name];
    if entry.proc.Some? {
      enabled := RunFlagProc(entry.proc.value, ctx, rt);
    } else {
      enabled := entry.enabled;
    }
  }

  /** The three read paths: unknown, with a proc, and without one (whatever the context). */
  lemma FlagReadPaths(flagState: map<string, FlagState>, name: string, ctx: Context, rt: Runtime)
    ensures name !in flagState ==> !GetFlagState(flagState, name, ctx, rt)
    ensures name in flagState && flagState[name].proc.Some? ==>
              GetFlagState(flagState, name, ctx, rt) == EvalFlagProc(flagState[name].proc.value, ctx, rt)
    ensures name in flagState && flagState[name].proc.None? ==>
              forall c: Context :: GetFlagState(flagState, name, c, rt) == flagState[name].enabled
  {
  }

  /** Right after seeding, a registered flag reads as its registered default. */
  lemma GetAfterSeed(defaults: seq<Flag>, i: int, ctx: Context, rt: Runtime)
    requires 0 <= i < |defaults|
    requires forall j :: i < j < |defaults| ==> defaults[j].name != defaults[i].name
    ensures GetFlagState(SeedFlags(defaults), defaults[i].name, ctx, rt) == defaults[i].enabled
  {
    SeedFlagsLast(defaults, i);
  }

  /** A payload flag the server does not override reads as the default registered before the merge. */
  lemma GetAfterMergeNotOverridden(m: map<string, FlagState>, flags: seq<FlagResponse>, rt: Runtime, i: int, ctx: Context)
    requires 0 <= i < |flags|
    requires forall j :: i < j < |flags| ==> flags[j].name != flags[i].name
    requires !flags[i].overridden
    ensures GetFlagState(MergeFlags(m, flags, rt), flags[i].name, ctx, rt) ==
            (flags[i].name in m && m[flags[i].name].enabled)
  {
    MergeFlagsLast(m, flags, rt, i);
  }

  /**
   * A payload flag the server overrides reads as its payload `enabled` when it
   * is disabled or has no conditions, and otherwise as the OR of its conditions.
   */
  lemma GetAfterMergeOverridden(m: map<string, FlagState>, flags: seq<FlagResponse>, rt: Runtime, i: int, ctx: Context)
    requires 0 <= i < |flags|
    requires forall j :: i < j < |flags| ==> flags[j].name != flags[i].name
    requires flags[i].overridden
    ensures var f := flags[i];
            GetFlagState(MergeFlags(m, flags, rt), f.name, ctx, rt) ==
            if f.enabled && |f.conditions| > 0
            then exists k :: 0 <= k < |f.conditions| && ConditionHolds(f.conditions[k].checks, ctx, rt)
            else f.enabled
  {
    MergeFlagsLast(m, flags, rt, i);
    FlagProcMeaning(flags[i], ctx, rt);
  }

  /** A flag the payload does not mention reads as it did before the merge. */
  lemma GetUntouchedByMerge(m: map<string, FlagState>, flags: seq<FlagResponse>, rt: Runtime, name: string, ctx: Context)
    requires forall j :: 0 <= j < |flags| ==> flags[j].name != name
    ensures GetFlagState(MergeFlags(m, flags, rt), name, ctx, rt) == GetFlagState(m, name, ctx, rt)
  {
    MergeFlagsUntouched(m, flags, rt, name);
  }

  /**
   * Flag A registered false, then merged at version 2 with one condition
   * `user.id == 123`: true for user.id 123, false for 456 and for an empty context.
   */
  lemma EndToEndFlagExample(rt: Runtime)
    ensures var check := Check(OpEqual, CheckVariable("user.id", TypeNumber), VReal(123.0));
            var payload := [FlagResponse("A", true, true, [Condition([check])])];
            var m := MergeFlags(SeedFlags([Flag("A", false)]), payload, rt);
            && GetFlagState(m, "A", map["user.id" := VReal(123.0)], rt)
            && !GetFlagState(m, "A", map["user.id" := VReal(456.0)], rt)
            && !GetFlagState(m, "A", map[], rt)
  {
    var check := Check(OpEqual, CheckVariable("user.id", TypeNumber), VReal(123.0));
    var payload := [FlagResponse("A", true, true, [Condition([check])])];
    var seeded := SeedFlags([Flag("A", false)]);
    assert CompileCheck(check, rt) == Equal("user.id", VReal(123.0));
    assert payload[0].conditions[0].checks == [check];
    var ctx1: Context := map["user.id" := VReal(123.0)];
    var ctx2: Context := map["user.id" := VReal(456.0)];
    var ctx3: Context := map[];
    GetAfterMergeOverridden(seeded, payload, rt, 0, ctx1);
    GetAfterMergeOverridden(seeded, payload, rt, 0, ctx2);
    GetAfterMergeOverridden(seeded, payload, rt, 0, ctx3);
    assert ConditionHolds([check], ctx1, rt);
    assert [check][0] == check;
    assert ctx2["user.id"] != VReal(123.0);
    assert !EvalCheck(CompileCheck([check][0], rt), ctx2, rt);
  }
}
