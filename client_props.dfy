/**
 * Properties of the merge State.Update performs and of the seeding done by
 * MakeClient: which entries change, which fields survive, and that merging
 * the same payload twice changes nothing more.
 */
module ClientProps {
  import opened Dynamic
  import opened Conditions
  import opened Client

  // ---------------------------------------------------------------------------
  // Where a name occurs last in a payload

  /** The last index in a payload whose entry has name n (read through `nameOf`), or -1. */
  function LastIndex<T>(entries: seq<T>, nameOf: T -> string, n: string): (i: int)
    ensures -1 <= i < |entries|
    ensures i >= 0 ==> nameOf(entries[i]) == n && forall j :: i < j < |entries| ==> nameOf(entries[j]) != n
    ensures i < 0 ==> forall j :: 0 <= j < |entries| ==> nameOf(entries[j]) != n
    decreases |entries|
  {
    if |entries| == 0 then -1
    else if nameOf(entries[|entries| - 1]) == n then |entries| - 1
    else LastIndex(entries[..|entries| - 1], nameOf, n)
  }

  predicate FlagsKeyedByName(m: map<string, FlagState>)
  {
    forall n :: n in m ==> m[n].name == n
  }

  predicate ValuesKeyedByName(m: map<string, ValueState>)
  {
    forall n :: n in m ==> m[n].name == n
  }

  // ---------------------------------------------------------------------------
  // Flags

  /** The merged map holds the old names plus the payload's names, and nothing else. */
  lemma {:induction false} MergeFlagsKeys(m: map<string, FlagState>, flags: seq<FlagResponse>, rt: Runtime)
    ensures forall n :: n in MergeFlags(m, flags, rt) <==>
                       n in m || exists i :: 0 <= i < |flags| && flags[i].name == n
    decreases |flags|
  {
    if |flags| > 0 {
      var init := flags[..|flags| - 1];
      MergeFlagsKeys(m, init, rt);
      forall n
        ensures n in MergeFlags(m, flags, rt) <==> n in m || exists i :: 0 <= i < |flags| && flags[i].name == n
      {
        if exists i :: 0 <= i < |flags| && flags[i].name == n {
          var i :| 0 <= i < |flags| && flags[i].name == n;
          if i < |flags| - 1 {
            assert init[i] == flags[i];
          }
        }
        if exists i :: 0 <= i < |init| && init[i].name == n {
          var i :| 0 <= i < |init| && init[i].name == n;
          assert flags[i] == init[i];
        }
      }
    }
  }

  /** An entry whose name the payload does not mention is left as it was (or stays absent). */
  lemma {:induction false} MergeFlagsUntouched(m: map<string, FlagState>, flags: seq<FlagResponse>, rt: Runtime, n: string)
    requires forall i :: 0 <= i < |flags| ==> flags[i].name != n
    ensures n in MergeFlags(m, flags, rt) <==> n in m
    ensures n in m ==> MergeFlags(m, flags, rt)[n] == m[n]
    decreases |flags|
  {
    if |flags| > 0 {
      var init := flags[..|flags| - 1];
      assert forall i :: 0 <= i < |init| ==> init[i] == flags[i];
      MergeFlagsUntouched(m, init, rt, n);
    }
  }

  /** Every merged entry keeps its registered default, and a new name gets default false. */
  lemma {:induction false} MergeFlagsKeepsDefaults(m: map<string, FlagState>, flags: seq<FlagResponse>, rt: Runtime)
    ensures forall n :: n in MergeFlags(m, flags, rt) ==>
                       MergeFlags(m, flags, rt)[n].enabled == (n in m && m[n].enabled)
    decreases |flags|
  {
    if |flags| > 0 {
      var init := flags[..|flags| - 1];
      MergeFlagsKeepsDefaults(m, init, rt);
      MergeFlagsKeys(m, init, rt);
    }
  }

  /**
   * A payload flag, at its last occurrence, determines its entry: the name,
   * the previous default (false for a new flag) and the compiled proc.
   */
  lemma {:induction false} MergeFlagsLast(m: map<string, FlagState>, flags: seq<FlagResponse>, rt: Runtime, i: int)
    requires 0 <= i < |flags|
    requires forall j :: i < j < |flags| ==> flags[j].name != flags[i].name
    ensures flags[i].name in MergeFlags(m, flags, rt)
    ensures MergeFlags(m, flags, rt)[flags[i].name] ==
            FlagState(flags[i].name, flags[i].name in m && m[flags[i].name].enabled, CompileFlag(flags[i], rt))
    decreases |flags|
  {
    var init := flags[..|flags| - 1];
    if i == |flags| - 1 {
      MergeFlagsKeepsDefaults(m, init, rt);
      MergeFlagsKeys(m, init, rt);
    } else {
      assert init[i] == flags[i];
      assert forall j :: i < j < |init| ==> init[j] == flags[j];
      MergeFlagsLast(m, init, rt, i);
    }
  }

  lemma {:induction false} MergeFlagsKeepsKeying(m: map<string, FlagState>, flags: seq<FlagResponse>, rt: Runtime)
    requires FlagsKeyedByName(m)
    ensures FlagsKeyedByName(MergeFlags(m, flags, rt))
    decreases |flags|
  {
    if |flags| > 0 {
      MergeFlagsKeepsKeying(m, flags[..|flags| - 1], rt);
    }
  }

  /** Merging the same flags a second time changes nothing. */
  lemma MergeFlagsIdempotent(m: map<string, FlagState>, flags: seq<FlagResponse>, rt: Runtime)
    ensures MergeFlags(MergeFlags(m, flags, rt), flags, rt) == MergeFlags(m, flags, rt)
  {
    var r1 := MergeFlags(m, flags, rt);
    var r2 := MergeFlags(r1, flags, rt);
    MergeFlagsKeys(m, flags, rt);
    MergeFlagsKeys(r1, flags, rt);
    forall n | n in r1
      ensures n in r2 && r2[n] == r1[n]
    {
      var i := LastIndex(flags, (f: FlagResponse) => f.name, n);
      if i >= 0 {
        MergeFlagsLast(m, flags, rt, i);
        MergeFlagsLast(r1, flags, rt, i);
      } else {
        MergeFlagsUntouched(r1, flags, rt, n);
      }
    }
    assert r2.Keys == r1.Keys;
  }

  // ---------------------------------------------------------------------------
  // Values

  lemma {:induction false} MergeValuesKeys(m: map<string, ValueState>, values: seq<ValueResponse>, rt: Runtime)
    ensures forall n :: n in MergeValues(m, values, rt) <==>
                       n in m || exists i :: 0 <= i < |values| && values[i].name == n
    decreases |values|
  {
    if |values| > 0 {
      var init := values[..|values| - 1];
      MergeValuesKeys(m, init, rt);
      forall n
        ensures n in MergeValues(m, values, rt) <==> n in m || exists i :: 0 <= i < |values| && values[i].name == n
      {
        if exists i :: 0 <= i < |values| && values[i].name == n {
          var i :| 0 <= i < |values| && values[i].name == n;
          if i < |values| - 1 {
            assert init[i] == values[i];
          }
        }
        if exists i :: 0 <= i < |init| && init[i].name == n {
          var i :| 0 <= i < |init| && init[i].name == n;
          assert values[i] == init[i];
        }
      }
    }
  }

  lemma {:induction false} MergeValuesUntouched(m: map<string, ValueState>, values: seq<ValueResponse>, rt: Runtime, n: string)
    requires forall i :: 0 <= i < |values| ==> values[i].name != n
    ensures n in MergeValues(m, values, rt) <==> n in m
    ensures n in m ==> MergeValues(m, values, rt)[n] == m[n]
    decreases |values|
  {
    if |values| > 0 {
      var init := values[..|values| - 1];
      assert forall i :: 0 <= i < |init| ==> init[i] == values[i];
      MergeValuesUntouched(m, init, rt, n);
    }
  }

  /** A default already registered is never overwritten by a merge. */
  lemma {:induction false} MergeValuesKeepsDefaults(m: map<string, ValueState>, values: seq<ValueResponse>, rt: Runtime)
    ensures forall n :: n in m ==>
                          (n in MergeValues(m, values, rt)
                           && MergeValues(m, values, rt)[n].defaultValue == m[n].defaultValue)
    decreases |values|
  {
    if |values| > 0 {
      MergeValuesKeepsDefaults(m, values[..|values| - 1], rt);
    }
  }

  /** A name new to the map takes the payload default of its FIRST occurrence. */
  lemma {:induction false} MergeValuesFirstDefault(m: map<string, ValueState>, values: seq<ValueResponse>, rt: Runtime, f: int)
    requires 0 <= f < |values|
    requires values[f].name !in m
    requires forall g :: 0 <= g < f ==> values[g].name != values[f].name
    ensures values[f].name in MergeValues(m, values, rt)
    ensures MergeValues(m, values, rt)[values[f].name].defaultValue == values[f].valueDefault
    decreases |values|
  {
    var init := values[..|values| - 1];
    if f == |values| - 1 {
      assert forall g :: 0 <= g < |init| ==> init[g] == values[g];
      MergeValuesUntouched(m, init, rt, values[f].name);
    } else {
      assert init[f] == values[f];
      assert forall g :: 0 <= g < f ==> init[g] == values[g];
      MergeValuesFirstDefault(m, init, rt, f);
    }
  }

  /**
   * A payload value, at its last occurrence, sets the entry's current value,
   * override marker and proc; a default already registered stays.
   */
  lemma {:induction false} MergeValuesLast(m: map<string, ValueState>, values: seq<ValueResponse>, rt: Runtime, i: int)
    requires 0 <= i < |values|
    requires forall j :: i < j < |values| ==> values[j].name != values[i].name
    ensures values[i].name in MergeValues(m, values, rt)
    ensures var e := MergeValues(m, values, rt)[values[i].name];
            && e.name == values[i].name
            && e.value == values[i].valueOverride
            && e.isOverridden == values[i].overridden
            && e.proc == Some(CompileValue(values[i], rt))
            && (values[i].name in m ==> e.defaultValue == m[values[i].name].defaultValue)
    decreases |values|
  {
    var init := values[..|values| - 1];
    if i == |values| - 1 {
      MergeValuesKeepsDefaults(m, init, rt);
    } else {
      assert init[i] == values[i];
      assert forall j :: i < j < |init| ==> init[j] == values[j];
      MergeValuesLast(m, init, rt, i);
    }
  }

  lemma {:induction false} MergeValuesKeepsKeying(m: map<string, ValueState>, values: seq<ValueResponse>, rt: Runtime)
    requires ValuesKeyedByName(m)
    ensures ValuesKeyedByName(MergeValues(m, values, rt))
    decreases |values|
  {
    if |values| > 0 {
      MergeValuesKeepsKeying(m, values[..|values| - 1], rt);
    }
  }

  /** Merging the same values a second time changes nothing. */
  lemma MergeValuesIdempotent(m: map<string, ValueState>, values: seq<ValueResponse>, rt: Runtime)
    ensures MergeValues(MergeValues(m, values, rt), values, rt) == MergeValues(m, values, rt)
  {
    var r1 := MergeValues(m, values, rt);
    var r2 := MergeValues(r1, values, rt);
    MergeValuesKeys(m, values, rt);
    MergeValuesKeys(r1, values, rt);
    forall n | n in r1
      ensures n in r2 && r2[n] == r1[n]
    {
      var i := LastIndex(values, (v: ValueResponse) => v.name, n);
      if i >= 0 {
        MergeValuesLast(m, values, rt, i);
        MergeValuesLast(r1, values, rt, i);
      } else {
        MergeValuesUntouched(r1, values, rt, n);
      }
    }
    assert r2.Keys == r1.Keys;
  }

  // ---------------------------------------------------------------------------
  // Seeding

  lemma {:induction false} SeedFlagsShape(flags: seq<Flag>)
    ensures forall n :: n in SeedFlags(flags) <==> exists i :: 0 <= i < |flags| && flags[i].name == n
    ensures FlagsKeyedByName(SeedFlags(flags))
    ensures forall n :: n in SeedFlags(flags) ==> SeedFlags(flags)[n].proc.None?
    decreases |flags|
  {
    if |flags| > 0 {
      var init := flags[..|flags| - 1];
      SeedFlagsShape(init);
      forall n
        ensures n in SeedFlags(flags) <==> exists i :: 0 <= i < |flags| && flags[i].name == n
      {
        if exists i :: 0 <= i < |flags| && flags[i].name == n {
          var i :| 0 <= i < |flags| && flags[i].name == n;
          if i < |flags| - 1 {
            assert init[i] == flags[i];
          }
        }
        if exists i :: 0 <= i < |init| && init[i].name == n {
          var i :| 0 <= i < |init| && init[i].name == n;
          assert flags[i] == init[i];
        }
      }
    }
  }

  /** A registered flag, at its last registration, is seeded with that default. */
  lemma {:induction false} SeedFlagsLast(flags: seq<Flag>, i: int)
    requires 0 <= i < |flags|
    requires forall j :: i < j < |flags| ==> flags[j].name != flags[i].name
    ensures flags[i].name in SeedFlags(flags)
    ensures SeedFlags(flags)[flags[i].name] == FlagState(flags[i].name, flags[i].enabled, None)
    decreases |flags|
  {
    if i < |flags| - 1 {
      var init := flags[..|flags| - 1];
      assert init[i] == flags[i];
      assert forall j :: i < j < |init| ==> init[j] == flags[j];
      SeedFlagsLast(init, i);
    }
  }

  lemma {:induction false} SeedValuesShape(values: seq<Value>)
    ensures forall n :: n in SeedValues(values) <==> exists i :: 0 <= i < |values| && values[i].name == n
    ensures ValuesKeyedByName(SeedValues(values))
    ensures forall n :: n in SeedValues(values) ==>
                       var e := SeedValues(values)[n];
                       e.proc.None? && !e.isOverridden && e.value == e.defaultValue
    decreases |values|
  {
    if |values| > 0 {
      var init := values[..|values| - 1];
      SeedValuesShape(init);
      forall n
        ensures n in SeedValues(values) <==> exists i :: 0 <= i < |values| && values[i].name == n
      {
        if exists i :: 0 <= i < |values| && values[i].name == n {
          var i :| 0 <= i < |values| && values[i].name == n;
          if i < |values| - 1 {
            assert init[i] == values[i];
          }
        }
        if exists i :: 0 <= i < |init| && init[i].name == n {
          var i :| 0 <= i < |init| && init[i].name == n;
          assert values[i] == init[i];
        }
      }
    }
  }

  /** A registered value, at its last registration, is seeded with that value as current and default. */
  lemma {:induction false} SeedValuesLast(values: seq<Value>, i: int)
    requires 0 <= i < |values|
    requires forall j :: i < j < |values| ==> values[j].name != values[i].name
    ensures values[i].name in SeedValues(values)
    ensures SeedValues(values)[values[i].name] ==
            ValueState(values[i].name, values[i].value, values[i].value, false, None)
    decreases |values|
  {
    if i < |values| - 1 {
      var init := values[..|values| - 1];
      assert init[i] == values[i];
      assert forall j :: i < j < |init| ==> init[j] == values[j];
      SeedValuesLast(init, i);
    }
  }

  /** The registered default of a seeded value survives any later merge. */
  lemma SeededDefaultSurvivesMerge(defaults: seq<Value>, i: int, values: seq<ValueResponse>, rt: Runtime)
    requires 0 <= i < |defaults|
    requires forall j :: i < j < |defaults| ==> defaults[j].name != defaults[i].name
    ensures defaults[i].name in MergeValues(SeedValues(defaults), values, rt)
    ensures MergeValues(SeedValues(defaults), values, rt)[defaults[i].name].defaultValue == defaults[i].value
  {
    SeedValuesLast(defaults, i);
    MergeValuesKeepsDefaults(SeedValues(defaults), values, rt);
  }

  /** The state of TestStateUpdate: default kept at 10, current value 20.0, overridden. */
  lemma StateUpdateExample(rt: Runtime)
    ensures var m := map["test_value" := ValueState("test_value", VInt(10), VInt(10), false, None)];
            var v := ValueResponse("test_value", true, true, VInt(10), VReal(20.0), []);
            var e := MergeValues(m, [v], rt)["test_value"];
            e.value == VReal(20.0) && e.defaultValue == VInt(10) && e.isOverridden
  {
    var m := map["test_value" := ValueState("test_value", VInt(10), VInt(10), false, None)];
    var v := ValueResponse("test_value", true, true, VInt(10), VReal(20.0), []);
    MergeValuesLast(m, [v], rt, 0);
  }
}
