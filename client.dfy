/**
 * The versioned state store and the client of client.go.
 *
 * State holds one entry per flag and per value.  The defaults registered
 * at construction are never overwritten by the server: Update replaces only
 * the compiled procs, the current value and the override marker of the
 * entries named in a payload, and does nothing at all when the payload
 * carries the version already held.  The network exchanges of Sync and
 * Load are represented by their outcome, passed in as a parameter.
 */
module Client {
  import opened Dynamic
  import opened Conditions

  /** time.Duration is a count of nanoseconds. */
  const Second := 1_000_000_000
  const DefaultSyncInterval := 10 * Second
  const DefaultRequestTimeout := 30 * Second

  /** A flag entry; `enabled` is the registered default, `proc` None for a nil proc. */
  datatype FlagState = FlagState(name: string, enabled: bool, proc: Option<FlagProc>)

  /** A value entry; `defaultValue` is the registered default, `value` the current one. */
  datatype ValueState = ValueState(
    name: string,
    value: Val,
    defaultValue: Val,
    isOverridden: bool,
    proc: Option<ValueProc>)

  datatype Flag = Flag(name: string, enabled: bool)

  datatype Value = Value(name: string, value: Val)

  datatype Defaults = Defaults(flags: seq<Flag>, values: seq<Value>)

  datatype Variable = Variable(name: string, varType: int)

  // ---------------------------------------------------------------------------
  // The merge that Update performs, as functions of the old maps

  /** The entry written for one payload flag, given the map as it stands at that point. */
  function MergedFlag(current: map<string, FlagState>, flag: FlagResponse, rt: Runtime): FlagState
  {
    FlagState(
      flag.name,
      if flag.name in current then current[flag.name].enabled else false,
      CompileFlag(flag, rt))
  }

  /** The flag map after merging the payload flags in order. */
  function MergeFlags(m: map<string, FlagState>, flags: seq<FlagResponse>, rt: Runtime): map<string, FlagState>
    decreases |flags|
  {
    if |flags| == 0 then m
    else
      var prev := MergeFlags(m, flags[..|flags| - 1], rt);
      var f := flags[|flags| - 1];
      prev[f.name := MergedFlag(prev, f, rt)]
  }

  /** The entry written for one payload value, given the map as it stands at that point. */
  function MergedValue(current: map<string, ValueState>, value: ValueResponse, rt: Runtime): ValueState
  {
    ValueState(
      value.name,
      value.valueOverride,
      if value.name in current then current[value.name].defaultValue else value.valueDefault,
      value.overridden,
      Some(CompileValue(value, rt)))
  }

  /** The value map after merging the payload values in order. */
  function MergeValues(m: map<string, ValueState>, values: seq<ValueResponse>, rt: Runtime): map<string, ValueState>
    decreases |values|
  {
    if |values| == 0 then m
    else
      var prev := MergeValues(m, values[..|values| - 1], rt);
      var v := values[|values| - 1];
      prev[v.name := MergedValue(prev, v, rt)]
  }

  // ---------------------------------------------------------------------------
  // The seeding MakeClient performs

  function SeedFlags(flags: seq<Flag>): map<string, FlagState>
    decreases |flags|
  {
    if |flags| == 0 then map[]
    else
      var f := flags[|flags| - 1];
      SeedFlags(flags[..|flags| - 1])[f.name := FlagState(f.name, f.enabled, None)]
  }

  function SeedValues(values: seq<Value>): map<string, ValueState>
    decreases |values|
  {
    if |values| == 0 then map[]
    else
      var v := values[|values| - 1];
      SeedValues(values[..|values| - 1])[v.name := ValueState(v.name, v.value, v.value, false, None)]
  }

  function FlagNamesOf(flags: seq<Flag>): seq<string>
  {
    seq(|flags|, k requires 0 <= k < |flags| => flags[k].name)
  }

  function ValueNamesOf(values: seq<Value>): seq<string>
  {
    seq(|values|, k requires 0 <= k < |values| => values[k].name)
  }

  // ---------------------------------------------------------------------------
  // The store

  class State {
    var flagState: map<string, FlagState>
    var flagNames: seq<string>
    var valueState: map<string, ValueState>
    var valueNames: seq<string>
    var version: int

    /** A State literal; the version starts at Go's zero value. */
    constructor (flagState: map<string, FlagState>, flagNames: seq<string>,
                 valueState: map<string, ValueState>, valueNames: seq<string>)
      ensures this.flagState == flagState && this.flagNames == flagNames
      ensures this.valueState == valueState && this.valueNames == valueNames
      ensures version == 0
    {
      this.flagState := flagState;
      this.flagNames := flagNames;
      this.valueState := valueState;
      this.valueNames := valueNames;
      this.version := 0;
    }

    /**
     * What Update leaves behind: nothing changed when the version is the one
     * held; otherwise the new version and the merged maps, with the name
     * lists untouched.
     */
    twostate predicate MergedFrom(version: int, flags: seq<FlagResponse>, values: seq<ValueResponse>, rt: Runtime)
      reads this
    {
      && flagNames == old(flagNames)
      && valueNames == old(valueNames)
      && if old(this.version) == version then
           this.version == old(this.version)
           && flagState == old(flagState) && valueState == old(valueState)
         else
           this.version == version
           && flagState == MergeFlags(old(flagState), flags, rt)
           && valueState == MergeValues(old(valueState), values, rt)
    }

    method Update(version: int, flags: seq<FlagResponse>, values: seq<ValueResponse>, rt: Runtime)
      modifies this
      ensures MergedFrom(version, flags, values, rt)
    {
      if this.version == version {
        return;
      }
      this.version := version;
      for i := 0 to |flags|
        invariant this.version == version
        invariant flagNames == old(flagNames) && valueNames == old(valueNames)
        invariant valueState == old(valueState)
        invariant flagState == MergeFlags(old(flagState), flags[..i], rt)
      {
        var flag := flags[i];
        var defaultEnabled := false;
        if flag.name in flagState {
          defaultEnabled := flagState[flag.name].enabled;
        }
        var proc := BuildFlagProc(flag, rt);
        assert flags[..i + 1][..i] == flags[..i];
        flagState := flagState[flag.name := FlagState(flag.name, defaultEnabled, proc)];
      }
      assert flags[..|flags|] == flags;
      for i := 0 to |values|
        invariant this.version == version
        invariant flagNames == old(flagNames) && valueNames == old(valueNames)
        invariant flagState == MergeFlags(old(flagState), flags, rt)
        invariant valueState == MergeValues(old(valueState), values[..i], rt)
      {
        var value := values[i];
        var defaultVal := value.valueDefault;
        if value.name in valueState {
          defaultVal := valueState[value.name].defaultValue;
        }
        var proc := BuildValueProc(value, rt);
        assert values[..i + 1][..i] == values[..i];
        valueState := valueState[value.name := ValueState(value.name, value.valueOverride, defaultVal, value.overridden, Some(proc))];
      }
      assert values[..|values|] == values;
    }
  }

  // ---------------------------------------------------------------------------
  // The client

  datatype SyncFlagsResponse = SyncFlagsResponse(version: int, flags: seq<FlagResponse>, values: seq<ValueResponse>)

  datatype LoadFlagsResponse = LoadFlagsResponse(version: int, flags: seq<FlagResponse>, values: seq<ValueResponse>)

  /** errors.Join(ErrorCantSyncFlags, cause) and errors.Join(ErrorCantLoadFlags, cause). */
  datatype ClientError = CantSyncFlags(cause: string) | CantLoadFlags(cause: string)

  datatype ClientOption =
    | WithVariables(variables: seq<Variable>)
    | WithSyncInterval(interval: int)
    | WithLogger
    | WithRequestTimeout(timeout: int)

  datatype ClientConfig = ClientConfig(variables: seq<Variable>, syncInterval: int, requestTimeout: int)

  const InitialConfig := ClientConfig([], DefaultSyncInterval, DefaultRequestTimeout)

  function ApplyOption(config: ClientConfig, opt: ClientOption): ClientConfig
  {
    match opt
    case WithVariables(vs) => config.(variables := vs)
    case WithSyncInterval(d) => config.(syncInterval := d)
    case WithLogger => config
    case WithRequestTimeout(d) => config.(requestTimeout := d)
  }

  /** The options applied in order, later ones overriding earlier ones. */
  function ApplyOptions(config: ClientConfig, opts: seq<ClientOption>): ClientConfig
    decreases |opts|
  {
    if |opts| == 0 then config
    else ApplyOption(ApplyOptions(config, opts[..|opts| - 1]), opts[|opts| - 1])
  }

  class FeatureFlags {
    const project: string
    const httpAddr: string
    const variables: seq<Variable>
    const syncInterval: int
    /** The Timeout of the http.Client that Sync and Load go through. */
    const clientTimeout: int
    const state: State

    constructor (project: string, httpAddr: string, variables: seq<Variable>,
                 syncInterval: int, clientTimeout: int, state: State)
      ensures this.project == project && this.httpAddr == httpAddr && this.variables == variables
      ensures this.syncInterval == syncInterval && this.clientTimeout == clientTimeout
      ensures this.state == state
    {
      this.project := project;
      this.httpAddr := httpAddr;
      this.variables := variables;
      this.syncInterval := syncInterval;
      this.clientTimeout := clientTimeout;
      this.state := state;
    }

    /** Sync, given the outcome of the sync exchange: a failed exchange leaves the state alone. */
    method Sync(reply: Result<SyncFlagsResponse, string>, rt: Runtime) returns (err: Option<ClientError>)
      modifies state
      ensures reply.Err? ==> err == Some(CantSyncFlags(reply.error)) && unchanged(state)
      ensures reply.Ok? ==> err == None
                            && state.MergedFrom(reply.value.version, reply.value.flags, reply.value.values, rt)
    {
      if reply.Err? {
        return Some(CantSyncFlags(reply.error));
      }
      var res := reply.value;
      state.Update(res.version, res.flags, res.values, rt);
      err := None;
    }

    /** Load, given the outcome of the load exchange: a failed exchange leaves the state alone. */
    method Load(reply: Result<LoadFlagsResponse, string>, rt: Runtime) returns (err: Option<ClientError>)
      modifies state
      ensures reply.Err? ==> err == Some(CantLoadFlags(reply.error)) && unchanged(state)
      ensures reply.Ok? ==> err == None
                            && state.MergedFrom(reply.value.version, reply.value.flags, reply.value.values, rt)
    {
      if reply.Err? {
        return Some(CantLoadFlags(reply.error));
      }
      var res := reply.value;
      state.Update(res.version, res.flags, res.values, rt);
      err := None;
    }
  }

  /** The option loop of MakeClient. */
  method Configure(opts: seq<ClientOption>) returns (config: ClientConfig)
    ensures config == ApplyOptions(InitialConfig, opts)
  {
    config := InitialConfig;
    for i := 0 to |opts|
      invariant config == ApplyOptions(InitialConfig, opts[..i])
    {
      assert opts[..i + 1][..i] == opts[..i];
      config := ApplyOption(config, opts[i]);
    }
    assert opts[..|opts|] == opts;
  }

  /** The flag-seeding loop of MakeClient. */
  method SeedFlagState(flags: seq<Flag>) returns (m: map<string, FlagState>, names: seq<string>)
    ensures m == SeedFlags(flags)
    ensures names == FlagNamesOf(flags)
  {
    m := map[];
    var a := new string[|flags|];
    for i := 0 to |flags|
      invariant m == SeedFlags(flags[..i])
      invariant forall k :: 0 <= k < i ==> a[k] == flags[k].name
    {
      var flag := flags[i];
      assert flags[..i + 1][..i] == flags[..i];
      m := m[flag.name := FlagState(flag.name, flag.enabled, None)];
      a[i] := flag.name;
    }
    assert flags[..|flags|] == flags;
    names := a[..];
  }

  /** The value-seeding loop of MakeClient. */
  method SeedValueState(values: seq<Value>) returns (m: map<string, ValueState>, names: seq<string>)
    ensures m == SeedValues(values)
    ensures names == ValueNamesOf(values)
  {
    m := map[];
    var a := new string[|values|];
    for i := 0 to |values|
      invariant m == SeedValues(values[..i])
      invariant forall k :: 0 <= k < i ==> a[k] == values[k].name
    {
      var value := values[i];
      assert values[..i + 1][..i] == values[..i];
      m := m[value.name := ValueState(value.name, value.value, value.value, false, None)];
      a[i] := value.name;
    }
    assert values[..|values|] == values;
    names := a[..];
  }

  /**
   * MakeClient: applies the options, seeds the state from the defaults,
   * replaces a non-positive interval or timeout by its default, and loads.
   */
  method MakeClient(httpAddr: string, project: string, defaults: Defaults, opts: seq<ClientOption>,
                    loadReply: Result<LoadFlagsResponse, string>, rt: Runtime)
    returns (r: Result<FeatureFlags, ClientError>)
    ensures loadReply.Err? ==> r == Err(CantLoadFlags(loadReply.error))
    ensures loadReply.Ok? ==> r.Ok? && fresh(r.value) && fresh(r.value.state)
    ensures r.Ok? ==>
      var c := r.value;
      var config := ApplyOptions(InitialConfig, opts);
      var res := loadReply.value;
      && c.project == project && c.httpAddr == httpAddr && c.variables == config.variables
      && c.syncInterval == (if config.syncInterval <= 0 then DefaultSyncInterval else config.syncInterval)
      && c.clientTimeout == (if config.requestTimeout <= 0 then DefaultRequestTimeout else config.requestTimeout)
      && c.state.flagNames == FlagNamesOf(defaults.flags)
      && c.state.valueNames == ValueNamesOf(defaults.values)
      && (res.version == 0 ==>
            c.state.version == 0
            && c.state.flagState == SeedFlags(defaults.flags)
            && c.state.valueState == SeedValues(defaults.values))
      && (res.version != 0 ==>
            c.state.version == res.version
            && c.state.flagState == MergeFlags(SeedFlags(defaults.flags), res.flags, rt)
            && c.state.valueState == MergeValues(SeedValues(defaults.values), res.values, rt))
  {
    var config := Configure(opts);
    var requestTimeout := config.requestTimeout;
    if requestTimeout <= 0 {
      requestTimeout := DefaultRequestTimeout;
    }
    var flagsMap, flagNames := SeedFlagState(defaults.flags);
    var valuesMap, valueNames := SeedValueState(defaults.values);
    var syncInterval := config.syncInterval;
    if syncInterval <= 0 {
      syncInterval := DefaultSyncInterval;
    }

    var state := new State(flagsMap, flagNames, valuesMap, valueNames);
    var client := new FeatureFlags(project, httpAddr, config.variables, syncInterval, requestTimeout, state);
    var err := client.Load(loadReply, rt);
    if err.Some? {
      return Err(err.value);
    }
    r := Ok(client);
  }
}
