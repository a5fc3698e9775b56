# featureflags-go client core, modelled in Dafny

This project models the core of the featureflags-go client library:

- **The condition interpreter (conditions.go).** The server sends targeting rules as checks. Each check has an operator code, a variable name and a literal. `checkProc` compiles each check into a predicate on the caller's context map. `flagProc` combines a flag's conditions as an OR over conditions of the AND of their checks. `valueProc` returns the override of the first condition, in declaration order, whose checks all pass; if none pass, it returns the base override.
- **The versioned state store (client.go, flags.go).** `State` holds one entry per flag and per value. `Update` merges a server payload into it. The merge does nothing when the payload's version is the one already held. It keeps each entry's registered default and replaces the compiled procs, the current value and the override marker. `MakeClient` seeds the state from the registered defaults and normalises the sync interval and the request timeout. `Sync` and `Load` change the state only through `Update`, and only when the exchange with the server succeeds.
- **The readers and typed accessors (flags.go, values.go).** `Get`, `GetValue`, `GetValueInt`, `GetValueString`, `MustGetValueInt`, `MustGetValueString` and `IsValueOverridden`.

How the model represents the Go program:

- Go's `any` becomes the closed variant `Dynamic.Val`: nil, int, float64, string, bool, `[]string` and `[]any`.
- The context becomes a `map<string, Val>`.
- Compiled closures become data:
  - a check becomes a `Conditions.CheckFunc` variant, evaluated by `EvalCheck`;
  - a flag proc becomes a `FlagProc`, a value proc a `ValueProc`, evaluated by `EvalFlagProc` and `EvalValueProc`.
- The source's loops stay loops. The `append` loops of `flagProc`/`valueProc`, the evaluation loops inside the closures, `toStringSlice`, `toSet`, the scans of `opSubset`/`opSuperset`, the loops of `Update` and the seeding loops of `MakeClient` are all methods. Each is proved equal to the function that gives its meaning.
- `State` and `FeatureFlags` are classes. `Update`, `Sync` and `Load` state the whole new state.
- Library code the core calls is passed in as a `Dynamic.Runtime` value:
  - MD5 plus the little-endian read of its last four bytes;
  - `fmt`'s `%v` rendering of non-strings;
  - `regexp.Compile` success and `regexp.MatchString`.
- The network exchanges of `Sync` and `Load` are passed in as their outcome, a `Result` of the response or an error text.
- Durations are integer nanoseconds.

Files:

- `dynamic.dfy`: values and conversions.
- `conditions.dfy`: the interpreter and the compiler.
- `conditions_props.dfy`: operator and compiler properties.
- `client.dfy`: the store and the client.
- `client_props.dfy`: merge and seed properties.
- `flags.dfy` and `values.dfy`: the readers and accessors.

The code and its documentation disagree on one point. The documentation of the wildcard operator (conditions.go:261) says `*` matches any sequence of characters. The code turns the pattern into the regular expression `^p0(?:.*)p1…$`, and in Go's regexp syntax `.` does not match a line feed. The model follows the code: a `*` matches any run of characters that contains no `'\n'`. `ConditionsProps.GapThenMeaning` and `ConditionsProps.WildcardOneStar` state this, and `ConditionsProps.WildcardGapStopsAtLineFeed` shows it on `a*b` against "a\nb" and "axb". `ConditionsProps.DocGlobMatch` states the documented reading. `ConditionsProps.GlobMatchAgreesWithDoc` proves the two readings agree on every string without a line feed, and `ConditionsProps.DocGlobDiffersOnLineFeed` shows they do not agree on "a\nb".

## Model

| member | source | states |
|---|---|---|
| Dynamic.ToStringSlice | conditions.go:93-110 | a `[]string` is returned as is; a `[]any` becomes the element-wise string forms, same length and order; anything else fails |
| Dynamic.ToSet | conditions.go:113-119 | a string is in the built set exactly when it occurs in the slice |
| Dynamic.LexLessTotal | conditions.go:150-155 | Go's string order is total and asymmetric: exactly one of equal, less or greater holds |
| Dynamic.LexLessIrreflexive | conditions.go:150-155 | no string is less than itself |
| Dynamic.Trunc | values.go:54-56 | `int(f)` truncates toward zero: the result is within one unit of f, on the side of zero |
| Dynamic.ToFloat64 | conditions.go:61-78 | definition: the numeric reading of an int or a float64, none for every other value |
| Dynamic.ToStr | conditions.go:81-90 | definition: a string as is, every other value through `fmt`'s `%v` rendering |
| Conditions.HashFlagValue | conditions.go:53-58 | definition: the last four digest bytes, little-endian, of the variable name followed by the value's `%v` form |
| Conditions.SplitStar | conditions.go:265 | definition: `strings.Split` of the pattern on `*` |
| Conditions.GlobMatch | conditions.go:262-271 | definition: the anchored match of `^p0(?:.*)p1…$`, each gap a run without line feeds |
| Conditions.CompileCheck | conditions.go:131-354 | definition: checkProc, which picks the operator's closure and gives always-false for a nil literal or an unknown operator |
| Conditions.EvalCheck | conditions.go:131-327 | definition: the bodies of the opX closures applied to a context |
| Conditions.CompileFlag | conditions.go:358-402 | definition: flagProc; no proc unless overridden, else a constant or the OR over conditions |
| Conditions.CompileValue | conditions.go:405-461 | definition: valueProc; the default, a first-match over conditions, or the override |
| Conditions.FirstPassing | conditions.go:439-453 | the index found is the first condition, in order, whose checks all pass; None means no condition from there on passes |
| Conditions.BuildChecks | conditions.go:367-374 | the append loop yields the compiled checks of a condition, and `[false]` for a condition without checks |
| Conditions.BuildFlagProc | conditions.go:358-402 | the loops build exactly the flag proc `CompileFlag` describes |
| Conditions.BuildValueProc | conditions.go:405-461 | the loops build exactly the value proc `CompileValue` describes |
| Conditions.RunCheck | conditions.go:276-327 | running a check, including the early-return scans of Subset and Superset, gives `EvalCheck` |
| Conditions.RunChecks | conditions.go:383-389 | the allPass loop with its break computes the AND of the checks |
| Conditions.RunFlagProc | conditions.go:380-395 | the flag closure's nested loops compute the OR over conditions of the AND of their checks |
| Conditions.RunValueProc | conditions.go:437-454 | the value closure's loops return the first passing condition's override, else the base override |
| ConditionsProps.FailClosed | conditions.go:133-136 | every compiled check is false when its variable is missing from the context |
| ConditionsProps.NilOrUnknownIsNever | conditions.go:345-354 | a nil literal or an operator code outside 1..11 compiles to the constant-false check |
| ConditionsProps.CheckReadsOnlyItsVariable | conditions.go:131-327 | a check's outcome depends only on the context entry of its own variable |
| ConditionsProps.EqualMeaning | conditions.go:131-139 | Equal holds iff the variable is present and its value has the literal's variant and payload |
| ConditionsProps.EqualDoesNotCoerce | conditions.go:137 | the float 123 literal does not equal the int 123 in the context |
| ConditionsProps.ContainsMeaning | conditions.go:215-225 | Contains holds iff the variable is present and the literal's string form occurs in the value's string form |
| ConditionsProps.OrderingMeaning | conditions.go:142-212 | with both sides numeric the four operators compare numbers; otherwise they compare string forms in Go's string order |
| ConditionsProps.OrderingOnEqualValues | conditions.go:142-212 | equal values fail LessThan and GreaterThan and pass LessOrEqual and GreaterOrEqual |
| ConditionsProps.OrEqualNegatesStrict | conditions.go:161-212 | for a present variable, LessOrEqual is the negation of GreaterThan, and GreaterOrEqual of LessThan |
| ConditionsProps.PercentNonNumeric | conditions.go:229-232 | a threshold without a numeric reading gives always-false |
| ConditionsProps.PercentBounds | conditions.go:229-240 | for any int or float threshold, one below 1 admits nobody and one of 100 or more admits exactly the present values |
| ConditionsProps.PercentTestThresholds | conditions_test.go:208-217 | the int thresholds 0 and 100 of the rollout tests admit nobody and every present value |
| ConditionsProps.PercentIsDeterministic | conditions.go:238-239 | the rollout decision depends only on the variable name and its value |
| ConditionsProps.RegexpMeaning | conditions.go:244-258 | a pattern that does not compile gives always-false; otherwise the matcher decides on the string form |
| ConditionsProps.SubsetMeaning | conditions.go:276-299 | Subset holds iff both lists are non-empty and every context element is in the literal list |
| ConditionsProps.SupersetMeaning | conditions.go:304-327 | Superset holds iff both lists are non-empty and every literal element is in the context list |
| ConditionsProps.SetOperatorExamples | conditions_test.go:300-326 | the subset, not-a-subset, superset and empty-literal vectors of the tests |
| ConditionsProps.SplitJoin | conditions.go:265 | splitting a pattern on `*` loses nothing (joining with `*` restores it) and no part contains `*` |
| ConditionsProps.SplitWithoutStar | conditions.go:265 | a pattern without `*` splits into itself alone |
| ConditionsProps.GapThenMeaning | conditions.go:269 | a `(?:.*)` gap followed by the remaining parts matches iff some line-feed-free stretch is followed by a match of those parts |
| ConditionsProps.WildcardWithoutStar | conditions.go:262-271 | a pattern without `*` matches only the identical string |
| ConditionsProps.WildcardOneStar | conditions.go:262-271 | `prefix*suffix` matches iff the value starts with prefix and the rest ends with suffix, with no line feed between |
| ConditionsProps.GlobTwoParts | conditions.go:269 | the anchored two-part pattern matches iff prefix, a line-feed-free middle and suffix make up the whole string |
| ConditionsProps.SuffixAfterGap | conditions.go:269 | a gap followed by the last part matches iff the string ends with that part after a line-feed-free stretch |
| ConditionsProps.SplitParts | conditions.go:265 | `prefix*suffix` with star-free parts splits into exactly those two parts |
| ConditionsProps.WildcardExampleMatches | conditions_test.go:272 | `*@example.com` matches `user@example.com` |
| ConditionsProps.WildcardGapStopsAtLineFeed | conditions.go:261-269 | `a*b` rejects a value with a line feed in the gap and accepts one with any other character there |
| ConditionsProps.GlobMatchAgreesWithDoc | conditions.go:261-269 | on a string without line feeds the code's match and the documented match (a `*` spans any characters) agree, for every pattern |
| ConditionsProps.DocGlobDiffersOnLineFeed | conditions.go:261-269 | the documented `a*b` matches "a\nb" and the code's does not |
| ConditionsProps.WildcardExampleRejects | conditions_test.go:276 | `*@example.com` does not match `user@other.com` |
| ConditionsProps.CompiledConditionMeaning | conditions.go:367-374 | a compiled condition passes iff the wire condition has checks and all of them pass |
| ConditionsProps.FlagProcMeaning | conditions.go:358-402 | no proc unless overridden; constant `Enabled` when disabled or without conditions; otherwise the OR over conditions of the AND of their checks |
| ConditionsProps.EmptyConditionNeverMatches | conditions.go:371-374 | a flag whose conditions all lack checks is false for every context |
| ConditionsProps.ValueProcMeaning | conditions.go:405-461 | `ValueDefault` when not overridden; the first holding condition's override; `ValueOverride` when none holds or conditions are not considered |
| Client.MergeFlags | client.go:33-49 | definition: the flag half of the merge, applied in payload order |
| Client.MergeValues | client.go:51-69 | definition: the value half of the merge, applied in payload order |
| Client.SeedFlags | client.go:361-367 | definition: the flag map MakeClient seeds from the registered flags |
| Client.SeedValues | client.go:369-377 | definition: the value map MakeClient seeds from the registered values |
| Client.State.Update | client.go:27-70 | an equal version changes nothing; otherwise the version is the payload's, the maps are the merged maps and the name lists are untouched |
| Client.FeatureFlags.Sync | client.go:108-118 | a failed exchange returns the sync error and leaves the state untouched; a successful one updates it |
| Client.FeatureFlags.Load | client.go:235-245 | a failed exchange returns the load error and leaves the state untouched; a successful one updates it |
| Client.Configure | client.go:330-341 | the options are applied in order over the initial configuration |
| Client.SeedFlagState | client.go:356-367 | the seeding loop builds the seeded flag map, and `flagNames[i]` is the i-th registered flag's name |
| Client.SeedValueState | client.go:369-377 | the seeding loop builds the seeded value map, and `valueNames[i]` is the i-th registered value's name |
| Client.MakeClient | client.go:323-406 | a failed load gives the load error; otherwise a fresh client with seeded names, a non-positive interval or timeout replaced by 10 s or 30 s, and the loaded state |
| ClientProps.LastIndex | client.go:33-57 | finds the last payload flag or value of a name, or reports that the payload has none |
| ClientProps.MergeFlagsKeys | client.go:33-49 | after the merge the flag map holds the old names plus the payload's names, and nothing else |
| ClientProps.MergeFlagsUntouched | client.go:33-49 | a flag the payload does not mention keeps its entry, or stays absent |
| ClientProps.MergeFlagsKeepsDefaults | client.go:35-39 | every merged flag keeps its registered `Enabled`; a flag new to the map gets false |
| ClientProps.MergeFlagsLast | client.go:33-49 | the last payload flag of a name sets that entry to the name, the previous default and `flagProc` of the flag |
| ClientProps.MergeFlagsKeepsKeying | client.go:44 | a map whose entries carry their own key still does after the merge |
| ClientProps.MergeFlagsIdempotent | client.go:33-49 | merging the same flags twice gives the same map as merging them once |
| ClientProps.MergeValuesKeys | client.go:51-69 | after the merge the value map holds the old names plus the payload's names, and nothing else |
| ClientProps.MergeValuesUntouched | client.go:51-69 | a value the payload does not mention keeps its entry, or stays absent |
| ClientProps.MergeValuesKeepsDefaults | client.go:53-57 | a registered `DefaultValue` is never overwritten by a merge |
| ClientProps.MergeValuesFirstDefault | client.go:53-57 | a value new to the map takes the `ValueDefault` of its first occurrence in the payload |
| ClientProps.MergeValuesLast | client.go:62-68 | the last payload value of a name sets `Value` to `ValueOverride`, `IsOverridden` to `Overridden` and the proc to `valueProc` of the value |
| ClientProps.MergeValuesKeepsKeying | client.go:62 | a map whose entries carry their own key still does after the merge |
| ClientProps.MergeValuesIdempotent | client.go:51-69 | merging the same values twice gives the same map as merging them once |
| ClientProps.SeedFlagsShape | client.go:361-367 | the seeded flag map holds exactly the registered names, each entry carries its key, and none has a proc |
| ClientProps.SeedFlagsLast | client.go:362-365 | a registered flag is seeded with its registered `Enabled` and no proc |
| ClientProps.SeedValuesShape | client.go:369-377 | the seeded value map holds exactly the registered names; no entry has a proc or is overridden, and each has `Value == DefaultValue` |
| ClientProps.SeedValuesLast | client.go:370-375 | a registered value is seeded with its value as both current value and default |
| ClientProps.SeededDefaultSurvivesMerge | client.go:53-57 | the default registered at seeding survives any later merge |
| ClientProps.StateUpdateExample | client_test.go:340-380 | after the update the value is 20.0, the default stays 10 and the value is overridden |
| Flags.Get | flags.go:27-31 | reading a flag runs its proc; an unknown name gives false; the state is not modified |
| Flags.GetFlagState | flags.go:11-24 | definition: the stored proc's result, else the stored Enabled, and false for an unknown name |
| Flags.FlagReadPaths | flags.go:11-24 | unknown gives false; an entry with a proc gives the proc's result; without one the stored `Enabled`, whatever the context |
| Flags.GetAfterSeed | flags.go:23 | right after seeding, a registered flag reads as its registered default |
| Flags.GetAfterMergeNotOverridden | flags.go:18-23 | after a merge with a non-overridden flag, it still reads as the default registered before |
| Flags.GetAfterMergeOverridden | flags.go:18-20 | an overridden flag reads as its payload `Enabled`, or, when enabled with conditions, as the OR of its conditions |
| Flags.GetUntouchedByMerge | flags.go:11-24 | a flag the payload does not mention reads as before the merge |
| Flags.EndToEndFlagExample | client_test.go:382-422 | flag A with condition `user.id == 123` is true for 123 and false for 456 and for an empty context |
| Values.GetValue | values.go:31-35 | reading a value runs its proc; an unknown name gives nil; the state is not modified |
| Values.GetValueState | values.go:15-28 | definition: the stored proc's result, else the stored Value, and nil for an unknown name |
| Values.GetValueInt | values.go:39-59 | succeeds exactly on a numeric value, giving its truncation toward zero; nil gives not-found; anything else gives cannot-cast |
| Values.MustGetValueInt | values.go:64-93 | fatal for an undefined name; the same int as `GetValueInt` when that succeeds; else the default if it is an int, fatal if not |
| Values.GetValueString | values.go:97-112 | succeeds exactly on a string value; nil gives not-found; anything else gives cannot-cast |
| Values.MustGetValueString | values.go:117-141 | fatal for an undefined name; the string of `GetValueString` when that succeeds; else the default if it is a string, fatal if not |
| Values.IsValueOverridden | values.go:143-152 | definition: the stored IsOverridden; false for an unknown name |
| Values.ValueReadPaths | values.go:15-28 | unknown gives nil; an entry with a proc gives the proc's result; without one the stored `Value`, whatever the context |
| Values.GetValueAfterSeed | values.go:144-152 | right after seeding, a registered value reads as its default and is not overridden |
| Values.GetValueAfterMerge | values.go:15-28 | a payload value reads through `valueProc`, and `IsValueOverridden` gives the payload's `Overridden` |
| Values.GetValueUntouchedByMerge | values.go:15-28 | a value the payload does not mention reads, and reports overriding, as before the merge |
| Values.MustGetValueIntNeverFatal | values.go:86-92 | a value registered with an int default never makes `MustGetValueInt` fatal, whatever is merged later |
| Values.MustGetValueStringNeverFatal | values.go:134-140 | a value registered with a string default never makes `MustGetValueString` fatal, whatever is merged later |
| Values.NewValueUsesServerDefault | client_test.go:424-454 | a value introduced by the server, not overridden, with a string payload default, gives that default |
| Values.EndToEndValueExample | conditions.go:436-455 | with conditions premium to P and gold to G and base override B: a gold tier gives G, a silver tier gives B |
| Values.AccessorExamples | values_test.go:168-219 | the int, float, wrong-type and undefined-name outcomes of the accessor tests |

## Left out

- HTTP and JSON: `SyncRequest`, `LoadRequest`, the request and response encodings and the `http.Client`. `Sync`, `Load` and `MakeClient` take the exchange's outcome as a parameter. `FeatureFlags.clientTimeout` stands for the client's `Timeout`.
- Concurrency: the `SyncLoop` goroutine with `time.Sleep`, and the `sync.RWMutex` locking. Reads and updates are sequential, atomic steps.
- The MD5 digest, `fmt`'s `%v` rendering and Go's regular expression engine are opaque `Runtime` fields. So the statistical spread of percent rollout (about half of many keys pass at threshold 50) is not modelled.
- Conditions.CompileCheck: the wildcard is matched directly as a glob over the `*`-split parts. The model does not build the `QuoteMeta`-escaped regular expression text and hand it to the regexp engine. That text always compiles and anchors the match at both ends, and its `(?:.*)` is modelled as a line-feed-free gap.
- Dynamic.Val: float64 is an exact real number. The rounding of `float64(int)` in the ordering operators is not represented: for an int 9007199254740993 against the float 9007199254740992, Go's `>` is false, the model's true. NaN and ±Inf context values are not represented either, so the ordering and Equal lemmas do not speak about them.
- Dynamic.Val: Go's `int32`, `int64` and `float32` are merged into the int and float64 variants. `fmt.Stringer` values and JSON objects are not represented. The results this merge changes are the next three lines.
- Values.GetValueInt: Go's `value.(int)` and `value.(float64)` reject an `int64`, `int32` or `float32` value with the cannot-cast error. The model returns the number.
- Values.MustGetValueInt: for an `int64`, `int32` or `float32` value Go falls back to the default, and panics when the default is of such a type too. The model returns the number.
- Conditions.EvalCheck: Equal finds `5` and `int64(5)` unequal in Go and equal in the model.
- Conditions.EvalCheck: Equal compares two slices of the same type (`[]string` with `[]string`, or `[]any` with `[]any`) by contents. Go's `==` on two `any` holding slices of the same type panics at run time instead. Slices of different types compare unequal in both Go and the model.
- Conditions.EvalCheck: Percent models `uint32(threshold)` as truncation toward zero. It does not model the platform-dependent conversion of negative, NaN or out-of-range floats.
- Values.GetValueInt: `int(f)` is truncation toward zero. An out-of-range or NaN float, whose conversion Go leaves to the platform, is not modelled. The same holds for Values.MustGetValueInt.
- The logger: `Printf` calls and the no-op default logger have no effect on results.
- featureflags.go is an older, incompatible version of the same types (it redeclares `State` and `Update` with other merge rules). It is not part of this model.
- context.go and example/main.go hold no logic and are not part of this model.
- A `State` written as a Go literal with nil maps panics on `Update`. The model's maps always exist, as `MakeClient` makes them.
