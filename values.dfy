/**
 * Reading a value and the typed accessors (values.go).  The error-returning
 * accessors report a missing value or a wrong type; the Must* accessors fall
 * back to the registered default and end the program (here: a Fatal outcome)
 * when the name was never registered or the default has the wrong type.
 */
module Values {
  import opened Dynamic
  import opened Conditions
  import opened ConditionsProps
  import opened Client
  import opened ClientProps

  /** The `error` results of GetValueInt and GetValueString. */
  datatype ValueError = NotFound(name: string) | CannotCast(name: string)

  /** The two panics of MustGetValueInt and MustGetValueString. */
  datatype FatalReason = NeverDefined | NoValidDefault

  datatype Must<+T> = Returned(value: T) | Fatal(reason: FatalReason)

  /** getValueState over the value map of a State; VNil is Go's nil. */
  function GetValueState(valueState: map<string, ValueState>, name: string, ctx: Context, rt: Runtime): Val
  {
    if name !in valueState then VNil
    else match valueState[name].proc
      case Some(p) => EvalValueProc(p, ctx, rt)
      case None => valueState[name].value
  }

  /** GetValue: looks the value up and runs its compiled proc; it changes nothing. */
  method GetValue(flags: FeatureFlags, name: string, ctx: Context, rt: Runtime) returns (v: Val)
    ensures v == GetValueState(flags.state.valueState, name, ctx, rt)
    ensures name !in flags.state.valueState ==> v == VNil
  {
    var valueState := flags.state.valueState;
    if name !in valueState {
      return VNil;
    }
    var entry := valueState[name];
    if entry.proc.Some? {
      v := RunValueProc(entry.proc.value, ctx, rt);
    } else {
      v := entry.value;
    }
  }

  /**
   * GetValueInt: succeeds exactly on a numeric value, truncating a float
   * toward zero; a nil value is "not found", anything else "cannot cast".
   */
  function GetValueInt(valueState: map<string, ValueState>, name: string, ctx: Context, rt: Runtime): (r: Result<int, ValueError>)
    ensures var v := GetValueState(valueState, name, ctx, rt);
            && (r.Ok? <==> ToFloat64(v).Some?)
            && (r.Ok? ==> r.value == Trunc(ToFloat64(v).value))
            && (r == Err(NotFound(name)) <==> v == VNil)
            && (r.Err? ==> r.error == NotFound(name) || r.error == CannotCast(name))
  {
    var v := GetValueState(valueState, name, ctx, rt);
    if v.VNil? then Err(NotFound(name))
    else match v
      case VInt(i) => Ok(i)
      case VReal(x) => Ok(Trunc(x))
      case _ => Err(CannotCast(name))
  }

  /**
   * MustGetValueInt: fatal for a name never registered; otherwise the same
   * int as GetValueInt whenever that succeeds, else the registered default
   * if it is an int, and fatal if it is not.
   */
  function MustGetValueInt(valueState: map<string, ValueState>, name: string, ctx: Context, rt: Runtime): (r: Must<int>)
    ensures name !in valueState <==> r == Fatal(NeverDefined)
    ensures name in valueState && GetValueInt(valueState, name, ctx, rt).Ok? ==>
              r == Returned(GetValueInt(valueState, name, ctx, rt).value)
    ensures name in valueState && GetValueInt(valueState, name, ctx, rt).Err? ==>
              r == if valueState[name].defaultValue.VInt?
                   then Returned(valueState[name].defaultValue.i)
                   else Fatal(NoValidDefault)
  {
    if name !in valueState then Fatal(NeverDefined)
    else
      var v := GetValueState(valueState, name, ctx, rt);
      match v
      case VInt(i) => Returned(i)
      case VReal(x) => Returned(Trunc(x))
      case _ =>
        match valueState[name].defaultValue
        case VInt(d) => Returned(d)
        case _ => Fatal(NoValidDefault)
  }

  /** GetValueString: succeeds exactly on a string value. */
  function GetValueString(valueState: map<string, ValueState>, name: string, ctx: Context, rt: Runtime): (r: Result<string, ValueError>)
    ensures var v := GetValueState(valueState, name, ctx, rt);
            && (r.Ok? <==> v.VStr?)
            && (r.Ok? ==> r.value == v.s)
            && (r == Err(NotFound(name)) <==> v == VNil)
            && (r.Err? ==> r.error == NotFound(name) || r.error == CannotCast(name))
  {
    var v := GetValueState(valueState, name, ctx, rt);
    if v.VNil? then Err(NotFound(name))
    else match v
      case VStr(s) => Ok(s)
      case _ => Err(CannotCast(name))
  }

  /**
   * MustGetValueString: fatal for a name never registered; otherwise the
   * string GetValueString returns whenever it succeeds, else the registered
   * default if it is a string, and fatal if it is not.
   */
  function MustGetValueString(valueState: map<string, ValueState>, name: string, ctx: Context, rt: Runtime): (r: Must<string>)
    ensures name !in valueState <==> r == Fatal(NeverDefined)
    ensures name in valueState && GetValueString(valueState, name, ctx, rt).Ok? ==>
              r == Returned(GetValueString(valueState, name, ctx, rt).value)
    ensures name in valueState && GetValueString(valueState, name, ctx, rt).Err? ==>
              r == if valueState[name].defaultValue.VStr?
                   then Returned(valueState[name].defaultValue.s)
                   else Fatal(NoValidDefault)
  {
    if name !in valueState then Fatal(NeverDefined)
    else
      var v := GetValueState(valueState, name, ctx, rt);
      match v
      case VStr(s) => Returned(s)
      case _ =>
        match valueState[name].defaultValue
        case VStr(d) => Returned(d)
        case _ => Fatal(NoValidDefault)
  }

  /** IsValueOverridden: the stored marker, false for a name never registered. */
  function IsValueOverridden(valueState: map<string, ValueState>, name: string): bool
  {
    name in valueState && valueState[name].isOverridden
  }

  // ---------------------------------------------------------------------------
  // Reading after seeding and merging

  /** The three read paths: unknown, with a proc, and without one (whatever the context). */
  lemma ValueReadPaths(valueState: map<string, ValueState>, name: string, ctx: Context, rt: Runtime)
    ensures name !in valueState ==> GetValueState(valueState, name, ctx, rt) == VNil
    ensures name in valueState && valueState[name].proc.Some? ==>
              GetValueState(valueState, name, ctx, rt) == EvalValueProc(valueState[name].proc.value, ctx, rt)
    ensures name in valueState && valueState[name].proc.None? ==>
              forall c: Context :: GetValueState(valueState, name, c, rt) == valueState[name].value
  {
  }

  /** Right after seeding, a registered value reads as its default and is not overridden. */
  lemma GetValueAfterSeed(defaults: seq<Value>, i: int, ctx: Context, rt: Runtime)
    requires 0 <= i < |defaults|
    requires forall j :: i < j < |defaults| ==> defaults[j].name != defaults[i].name
    ensures GetValueState(SeedValues(defaults), defaults[i].name, ctx, rt) == defaults[i].value
    ensures !IsValueOverridden(SeedValues(defaults), defaults[i].name)
  {
    SeedValuesLast(defaults, i);
  }

  /** A payload value reads through its compiled proc, and carries the payload's override marker. */
  lemma GetValueAfterMerge(m: map<string, ValueState>, values: seq<ValueResponse>, rt: Runtime, i: int, ctx: Context)
    requires 0 <= i < |values|
    requires forall j :: i < j < |values| ==> values[j].name != values[i].name
    ensures GetValueState(MergeValues(m, values, rt), values[i].name, ctx, rt) ==
            EvalValueProc(CompileValue(values[i], rt), ctx, rt)
    ensures IsValueOverridden(MergeValues(m, values, rt), values[i].name) == values[i].overridden
  {
    MergeValuesLast(m, values, rt, i);
  }

  /** A value the payload does not mention reads, and reports overriding, as before the merge. */
  lemma GetValueUntouchedByMerge(m: map<string, ValueState>, values: seq<ValueResponse>, rt: Runtime, name: string, ctx: Context)
    requires forall j :: 0 <= j < |values| ==> values[j].name != name
    ensures GetValueState(MergeValues(m, values, rt), name, ctx, rt) == GetValueState(m, name, ctx, rt)
    ensures IsValueOverridden(MergeValues(m, values, rt), name) == IsValueOverridden(m, name)
  {
    MergeValuesUntouched(m, values, rt, name);
  }

  /** A value registered with an int default never makes MustGetValueInt fatal, whatever is merged later. */
  lemma MustGetValueIntNeverFatal(defaults: seq<Value>, i: int, values: seq<ValueResponse>, rt: Runtime, ctx: Context)
    requires 0 <= i < |defaults|
    requires forall j :: i < j < |defaults| ==> defaults[j].name != defaults[i].name
    requires defaults[i].value.VInt?
    ensures MustGetValueInt(MergeValues(SeedValues(defaults), values, rt), defaults[i].name, ctx, rt).Returned?
  {
    SeededDefaultSurvivesMerge(defaults, i, values, rt);
  }

  /** A value registered with a string default never makes MustGetValueString fatal, whatever is merged later. */
  lemma MustGetValueStringNeverFatal(defaults: seq<Value>, i: int, values: seq<ValueResponse>, rt: Runtime, ctx: Context)
    requires 0 <= i < |defaults|
    requires forall j :: i < j < |defaults| ==> defaults[j].name != defaults[i].name
    requires defaults[i].value.VStr?
    ensures MustGetValueString(MergeValues(SeedValues(defaults), values, rt), defaults[i].name, ctx, rt).Returned?
  {
    SeededDefaultSurvivesMerge(defaults, i, values, rt);
  }

  /**
   * A value first introduced by the server, not overridden, with a string
   * payload default and an override of another type: MustGetValueString
   * returns the payload default.
   */
  lemma NewValueUsesServerDefault(m: map<string, ValueState>, name: string, d: string, override: Val, ctx: Context, rt: Runtime)
    requires name !in m
    ensures MustGetValueString(MergeValues(m, [ValueResponse(name, true, false, VStr(d), override, [])], rt), name, ctx, rt)
            == Returned(d)
  {
    var values := [ValueResponse(name, true, false, VStr(d), override, [])];
    GetValueAfterMerge(m, values, rt, 0, ctx);
    MergeValuesKeys(m, values, rt);
  }

  /**
   * Value V with conditions `tier == "premium"` giving "P" and `tier == "gold"`
   * giving "G", and base override "B": "G" for a gold tier, "B" for silver.
   */
  lemma EndToEndValueExample(rt: Runtime)
    ensures var premium := Check(OpEqual, CheckVariable("tier", TypeString), VStr("premium"));
            var gold := Check(OpEqual, CheckVariable("tier", TypeString), VStr("gold"));
            var v := ValueResponse("V", true, true, VStr("B"), VStr("B"),
                                   [ValueCondition([premium], VStr("P")), ValueCondition([gold], VStr("G"))]);
            var m := MergeValues(SeedValues([Value("V", VStr("B"))]), [v], rt);
            && GetValueState(m, "V", map["tier" := VStr("gold")], rt) == VStr("G")
            && GetValueState(m, "V", map["tier" := VStr("silver")], rt) == VStr("B")
  {
    var premium := Check(OpEqual, CheckVariable("tier", TypeString), VStr("premium"));
    var gold := Check(OpEqual, CheckVariable("tier", TypeString), VStr("gold"));
    var v := ValueResponse("V", true, true, VStr("B"), VStr("B"),
                           [ValueCondition([premium], VStr("P")), ValueCondition([gold], VStr("G"))]);
    var seeded := SeedValues([Value("V", VStr("B"))]);
    var goldCtx: Context := map["tier" := VStr("gold")];
    var silverCtx: Context := map["tier" := VStr("silver")];
    GetValueAfterMerge(seeded, [v], rt, 0, goldCtx);
    GetValueAfterMerge(seeded, [v], rt, 0, silverCtx);
    ValueProcMeaning(v, goldCtx, rt);
    ValueProcMeaning(v, silverCtx, rt);
    assert [premium][0] == premium && [gold][0] == gold;
    assert goldCtx["tier"] != VStr("premium");
    assert !EvalCheck(CompileCheck([premium][0], rt), goldCtx, rt);
    assert !ConditionHolds(v.conditions[0].checks, goldCtx, rt);
    assert ConditionHolds(v.conditions[1].checks, goldCtx, rt);
    assert v.conditions[1].valueOverride == VStr("G");
    assert silverCtx["tier"] != VStr("premium") && silverCtx["tier"] != VStr("gold");
    assert !EvalCheck(CompileCheck([premium][0], rt), silverCtx, rt);
    assert !EvalCheck(CompileCheck([gold][0], rt), silverCtx, rt);
  }

  /** The accessor outcomes of TestMustGetValueIntAndString. */
  lemma AccessorExamples(ctx: Context, rt: Runtime)
    ensures var vs := map[
              "int_value" := ValueState("int_value", VInt(42), VInt(10), true, None),
              "float_value" := ValueState("float_value", VReal(3.14), VReal(1.0), true, None),
              "wrong_type_int" := ValueState("wrong_type_int", VStr("not_an_int"), VInt(99), true, None),
              "wrong_type_str" := ValueState("wrong_type_str", VInt(123), VStr("fallback"), true, None)];
            && MustGetValueInt(vs, "int_value", ctx, rt) == Returned(42)
            && MustGetValueInt(vs, "float_value", ctx, rt) == Returned(3)
            && MustGetValueInt(vs, "wrong_type_int", ctx, rt) == Returned(99)
            && MustGetValueInt(vs, "non_existent", ctx, rt) == Fatal(NeverDefined)
            && MustGetValueString(vs, "wrong_type_str", ctx, rt) == Returned("fallback")
            && GetValueString(vs, "wrong_type_str", ctx, rt) == Err(CannotCast("wrong_type_str"))
            && GetValueInt(vs, "non_existent", ctx, rt) == Err(NotFound("non_existent"))
  {
  }
}
