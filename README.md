# viper-aws, modelled in Dafny

viper-aws feeds Viper configuration from two AWS stores. Each store has a provider that polls it and pushes a change when one appears:

- **Parameter Store.** The provider reads every parameter under a base path, one page at a time. It keeps the parameters in a `Parameters` snapshot that serves them as JSON through `io.Reader`. It remembers each key's version and reports Current, Created, Updated and Deleted keys.
- **Secrets Manager.** The provider reads the AWSCURRENT version of a secret. When its `updateStage` field is set, it labels that version with its creation time. `NewConfigProvider` leaves the field false and no option sets it, so through the package's own API this branch is never taken. Before labelling, it prunes old labels: only the newest `keepStages - 2` labelled versions keep theirs, and AWSCURRENT, AWSPREVIOUS and unlabelled versions are never touched. The older copy of this provider in `secrets/secrets.go` behaves the same way with three differences. It loads the AWS configuration on every fetch. It rotates on every fetch. It warns about every failed label update.

The package also offers a debouncer for local file events (`OnFileDeDupChangeFn`). It coalesces a burst of events for one path into a single callback.

The model replaces the AWS client with the replies it would give:

- The pages of a `GetParametersByPath` traversal and the reply that ends it.
- The reply to `GetSecretValue` and the version listing.
- A function from each `UpdateSecretVersionStage` request to its reply.

The `UpdateSecretVersionStage` requests a secrets provider issues are kept as a sequence in the provider's state. So are the lines it logs about the listing and about each stage update. The other log calls are not modelled; see "Left out". A poll loop is modelled as a loop over a sequence of fetch results. The debouncer runs on a logical clock in nanoseconds.

Files:

| file | module | models |
|---|---|---|
| `common.dfy` | `Common` | nil as `Option`; `strings.Index` and `strings.Replace(s, old, "", 1)` |
| `param_options.dfy` | `ParamOptions` | the options of `parameterstore/option.go` and the provider defaults |
| `param_snapshot.dfy` | `ParamSnapshot` | `parameterstore/parameter.go`: class `Parameters` with its `Read` cursor and lookups |
| `param_provider.dfy` | `ParamProvider` | `parameterstore/provider.go`: pagination fold, diff, `Get`, one tick, the poll loop |
| `secrets_shared.dfy` | `SecretsShared` | what both secrets providers share: the label, sort, filter and clean-up plan, the log lines, the tick |
| `secrets_provider.dfy` | `SecretsProvider` | `secrets/provider.go` |
| `secrets_legacy.dfy` | `SecretsLegacy` | `secrets/secrets.go` |
| `file_debounce.dfy` | `FileDebounce` | `OnFileDeDupChangeFn` of `config.go` |

How the model reads Go:

- **Panics.** Go panics in two places during rotation: at the slice `vs[keepStages-2:]` when the filtered listing is too short, and when `CreatedDate` is nil. Both are modelled as explicit outcomes (`SliceOutOfRange`, `Panicked`). In `secrets/provider.go` the watch goroutine recovers the panic and stops. In `secrets/secrets.go` there is no `recover`, so the process ends. In both models the run of ticks stops there.
- **The debouncer's event.** The callback receives the event that *created* the path's timer, because the closure captures it. Later events only re-arm the timer. The design description of the debouncer says the callback gets the latest event. The model follows the code, and `FileDebounce.ScenarioBurst` states the first-event behaviour.
- **Timing ties.** A timer due at the very instant an event arrives is modelled as firing before the event is handled.

## Model

| member | source | states |
|---|---|---|
| Common.Index | parameterstore/parameter.go:64 | the index found is the leftmost occurrence of the pattern; None only when the pattern occurs nowhere |
| Common.RemoveFirstCutsLeftmost | parameterstore/parameter.go:64 | `strings.Replace(s, bp, "", 1)` cuts exactly the leftmost occurrence of `bp`, and returns `s` unchanged when `bp` does not occur |
| Common.RemoveFirstOfPrefixed | parameterstore/parameter.go:59-64 | cutting the base path from `basePath + name` gives back `name` |
| ParamOptions.Defaults | parameterstore/provider.go:48-54 | a new provider has region us-east-1, an empty base path, a 5-second interval, the empty logger and no change callback |
| ParamOptions.BasePathAfterShape | parameterstore/option.go:11-22 | `WithBasePath("")` changes nothing; a non-empty path is stored as itself plus at most one '/', and always ends in '/' |
| ParamOptions.BasePathAfterIdempotent | parameterstore/option.go:17-20 | a path already ending in '/' is stored unchanged, so applying `WithBasePath` to its own result stores the same path |
| ParamOptions.IntervalAfter | parameterstore/option.go:48-54 | `WithWatchInterval(w)` installs `w` exactly when `w` exceeds one second, and keeps the current interval otherwise |
| ParamOptions.LoggerAfter | parameterstore/option.go:56-62 | `WithLogger(nil)` keeps the current logger; a non-nil logger replaces it |
| ParamOptions.Apply | parameterstore/option.go:9-68 | WithBasePath, WithWatchInterval and WithLogger update their own field with the guards above; no other option touches the base path, the interval or the logger |
| ParamOptions.ApplyAllKeepsIntervalAboveSecond | parameterstore/provider.go:56-58 | whatever options run in order, the watch interval stays above one second |
| ParamOptions.ApplyAllBasePathEndsInSlash | parameterstore/provider.go:56-58 | whatever options run in order, a non-empty base path ends in '/' |
| ParamSnapshot.Parameter.GetValue | parameterstore/parameter.go:26-31 | "" for a nil Value, the value otherwise |
| ParamSnapshot.KeyValues | parameterstore/parameter.go:117-124 | the key/value view has exactly the snapshot's keys, each mapped to `GetValue()` |
| ParamSnapshot.Parameters.constructor | parameterstore/parameter.go:33-38 | `NewParameters` stores the base path and map, with no JSON buffer yet and the cursor at 0 |
| ParamSnapshot.Parameters.KeyValueMap | parameterstore/parameter.go:117-124 | `getKeyValueMap` builds the map in a loop and returns exactly the key/value view |
| ParamSnapshot.Parameters.Read | parameterstore/parameter.go:40-57 | JSON is marshalled on the first `Read` only and reused afterwards; a marshal error returns (0, err) and caches nothing; at the end it returns (0, EOF) and rewinds to 0; otherwise it copies min(len(des), remaining) bytes of the buffer from the cursor, leaves the rest of `des` alone and advances the cursor by that count, keeping 0 ≤ cursor ≤ len(buffer) |
| ParamSnapshot.ReadAll | parameterstore/parameter.go:40-57 | reading a snapshot to EOF, as `bytes.Buffer.ReadFrom` does, yields the buffer from the cursor to the end (the whole JSON for a fresh snapshot) and leaves the cursor rewound |
| ParamSnapshot.ReadTwice | parameterstore/parameter.go:41-51 | after EOF a snapshot replays from the start: two full reads both give the JSON of its key/value view |
| ParamSnapshot.Parameters.Get | parameterstore/parameter.go:90-97 | nil exactly when the name is not in the snapshot, the stored parameter otherwise |
| ParamSnapshot.Parameters.Exists | parameterstore/parameter.go:99-102 | true exactly when the name is in the snapshot |
| ParamSnapshot.Parameters.GetValueByName | parameterstore/parameter.go:104-111 | "" for a missing name, `GetValue()` of the parameter otherwise |
| ParamSnapshot.Parameters.GetValueByFullPath | parameterstore/parameter.go:81-88 | "" when nothing is stored under the path with the base path cut out, that parameter's `GetValue()` otherwise |
| ParamSnapshot.Parameters.GetAgreesWithExists | parameterstore/parameter.go:90-111 | `Get` is nil exactly when `Exists` is false, and `GetValueByName` is "" for a missing name |
| ParamSnapshot.Parameters.FullPathRoundTrip | parameterstore/parameter.go:59-88 | `GetByFullPath(GetFullPath(k)) == Get(k)`, `ExistsByFullPath(GetFullPath(k)) == Exists(k)`, and likewise for the value lookups |
| ParamProvider.ReplyTo | parameterstore/provider.go:123-157 | the calls before the last get pages that carry a NextToken; the last call fails, returns nil, or returns a page without one |
| ParamProvider.RequestTokens | parameterstore/provider.go:120-156 | the first call passes a nil NextToken and each later call passes the previous page's token |
| ParamProvider.Versions | parameterstore/provider.go:251-254 | the version map has the snapshot's keys, each with its parameter's version |
| ParamProvider.FoldAppend | parameterstore/provider.go:123-157 | folding page after page is folding their concatenation: pages are processed in order |
| ParamProvider.FoldKeys | parameterstore/provider.go:137-149 | a key is in the result exactly when some entry with a name maps to it once the base path is cut out |
| ParamProvider.FoldLastWins | parameterstore/provider.go:142-148 | under a key, the last entry mapping to it wins, so a later page overwrites an earlier one |
| ParamProvider.FoldSkipsNilNames | parameterstore/provider.go:138-140 | an entry with a nil Name contributes nothing |
| ParamProvider.CollectOutcome | parameterstore/provider.go:123-163 | GetResult fails exactly when a call fails (that error, which wins) or when no entry with a name came back (ErrAwsSSMParametersEmpty) |
| ParamProvider.CollectKeys | parameterstore/provider.go:137-149 | a successful snapshot's keys are exactly the stripped names of the entries returned |
| ParamProvider.TokensComplete | parameterstore/provider.go:132-156 | pagination stops at a nil result or a nil NextToken, by which point every page's token has been passed on |
| ParamProvider.DiffShape | parameterstore/provider.go:239-258 | Current is the new key set; Created ⊆ Current, Updated ⊆ Current, Deleted ∩ Current = ∅, and Created, Updated and Deleted are pairwise disjoint |
| ParamProvider.DiffClassifies | parameterstore/provider.go:239-258 | a vanished key is in Deleted only; a kept key with a new version is in Updated and Current; a kept key with an equal version is only in Current; a new key is in Created and Current |
| ParamProvider.HasChangesIffDiffer | parameterstore/provider.go:204 | Created, Updated or Deleted is non-empty exactly when the old and new version maps differ |
| ParamProvider.DiffAgainstItselfIsQuiet | parameterstore/provider.go:251-260 | once the remembered versions are the snapshot's, diffing the same snapshot yields no Created, Updated or Deleted |
| ParamProvider.TickEmitsOnlyOnDifference | parameterstore/provider.go:195-222 | a tick with a fetch error changes nothing; after a good fetch the remembered versions are the snapshot's; a tick emits only when they changed, and then it emits the snapshot's JSON |
| ParamProvider.RepeatedTickIsQuiet | parameterstore/provider.go:195-222 | a tick repeating the previous fetch emits nothing and changes nothing |
| ParamProvider.ScenarioDiff | parameterstore/provider.go:232-263 | {foo@1, bar@1} then {foo@1, bar@2, baz@1}: Updated {bar}, Created {baz}, Deleted {}, Current {foo, bar, baz} |
| ParamProvider.Provider.constructor | parameterstore/provider.go:47-58 | the provider takes the settings the options produced, with no remembered versions |
| ParamProvider.Provider.CollectPages | parameterstore/provider.go:120-163 | the pagination loop returns the fold of every page in order, or the first call error, or the empty error; it passes the expected tokens |
| ParamProvider.Provider.AddPage | parameterstore/provider.go:136-150 | one page's entries are folded in order, skipping nil names |
| ParamProvider.Provider.GetResult | parameterstore/provider.go:108-165 | a fresh snapshot over the collected map and the provider's base path, with no JSON yet, or the collected error |
| ParamProvider.Provider.Get | parameterstore/provider.go:91-102 | on success the snapshot's versions are merged into the remembered ones (old keys the snapshot lacks stay); on error nothing changes |
| ParamProvider.Provider.GetChanges | parameterstore/provider.go:232-263 | the four lists enumerate, without repeats, the Current/Created/Updated/Deleted sets of the diff, and the remembered versions become exactly the snapshot's |
| ParamProvider.Provider.Tick | parameterstore/provider.go:195-222 | one tick: skip on a fetch error; skip when nothing was created, updated or deleted; the versions have advanced even when reading the buffer then fails; otherwise push the JSON, then notify the callback (if set) with the diff |
| ParamProvider.Provider.Watch | parameterstore/provider.go:193-227 | the loop over fetch results pushes exactly the payloads of consecutive ticks, in order |
| SecretsShared.Decimal | secrets/provider.go:130 | the label's digits: at least one, and one exactly below ten |
| SecretsShared.LabelProperties | secrets/provider.go:130 | distinct creation seconds, before 1970 included, give distinct labels, and no label is AWSCURRENT or AWSPREVIOUS |
| SecretsShared.SortNewestFirst | secrets/provider.go:163-168 | the sort is a permutation, newest first when every entry has a CreatedDate |
| SecretsShared.Insert | secrets/provider.go:163-168 | inserting one entry keeps the list a permutation and keeps it newest first |
| SecretsShared.KeepEligible | secrets/provider.go:171-177 | the filter keeps every entry that has labels and neither AWSCURRENT nor AWSPREVIOUS, as often as it is listed, and drops all others; a newest-first listing stays newest first |
| SecretsShared.SplitFiltered | secrets/provider.go:179 | `vs[keepStages-2:]` is out of range exactly when fewer than keepStages-2 entries remain; otherwise the kept part (keepStages-2 entries) and the excess together make up the filtered list |
| SecretsShared.PlanSplitsFiltered | secrets/provider.go:156-179 | with more than keepStages versions, the clean-up keeps the first keepStages-2 sorted, filtered entries and treats the rest as excess, or panics when too few are left |
| SecretsShared.SplitKeepsOrder | secrets/provider.go:179 | cutting a newest-first list at keepStages-2 leaves no entry in the tail newer than one in the head |
| SecretsShared.KeptAreNewest | secrets/provider.go:160-179 | when every version is dated, no version whose labels are detached is newer than a version that keeps its labels: clean-up keeps the newest keepStages-2 eligible versions |
| SecretsShared.SplitCoversEligible | secrets/provider.go:160-179 | the kept and excess versions together are exactly the eligible versions of the listing, each as often as it is listed |
| SecretsShared.DetachAllMembers | secrets/provider.go:181-193 | the requests are exactly one detach per label of each excess entry that has a VersionId |
| SecretsShared.CleanupQuietCases | secrets/provider.go:149-158 | no request when the listing fails or there are at most keepStages versions |
| SecretsShared.CleanupTouchesOnlyExcess | secrets/provider.go:171-193 | every request detaches a label of an eligible listed version, and never AWSCURRENT or AWSPREVIOUS; conversely, every label of every excess version with an id is detached |
| SecretsShared.CleanupSparesKeptAndLive | secrets/provider.go:171-193 | with unique version ids, no request names a kept, live or unlabelled version |
| SecretsShared.UpdateLogsAppend | secrets/provider.go:196-217 | the log of consecutive requests is the logs of each request, in order |
| SecretsShared.UpdateLogsClassify | secrets/provider.go:196-217 | a success is logged at info; an error other than InvalidParameterException is warned with its message; InvalidParameterException is warned only when not suppressed; every line comes from one request |
| SecretsShared.PlanRotation | secrets/provider.go:127-138 | no rotation exactly when the version already carries its label; a rotation attaches that label to a version lacking it |
| SecretsShared.RotationOrder | secrets/provider.go:131-137 | a rotation issues nothing unless it attaches; then every detach comes before the single attach, which is last |
| SecretsShared.Then | secrets/provider.go:245-272 | running two stretches of ticks one after the other extends the pushes, requests and logs of the first, and ends in the second's version |
| SecretsShared.ThenAssoc | secrets/provider.go:245-272 | ticks compose associatively |
| SecretsShared.TickStep | secrets/provider.go:247-267 | a tick emits exactly when the fetch succeeded with a new version; it then remembers that version and pushes its secret string; a panic stops the loop |
| SecretsShared.TicksRun | secrets/provider.go:245-272 | no more ticks run than were given |
| SecretsShared.PollStep | secrets/provider.go:245-272 | a run of ticks is the first tick followed by the rest, unless it panicked |
| SecretsShared.EmissionsChangeVersion | secrets/provider.go:256-263 | each push carries a version other than the one remembered before it, so no two consecutive pushes carry the same version |
| SecretsShared.ScenarioRotatingVersions | secrets/provider.go:247-267 | starting at v1, the results v1, v1, v2, v2, v3 push exactly v2 then v3, ending at v3 |
| SecretsProvider.FetchErrors | secrets/provider.go:114-125 | a failed call gives GetSecretValue's error; a nil result, nil SecretString or empty SecretString gives ErrAwsSecretsEmptyValue; a failure issues and logs nothing |
| SecretsProvider.RotationGate | secrets/provider.go:127-138 | no listing, detach or attach unless updateStage is set and the version lacks its label; then every detach precedes the attach of that label to the fetched version; whenever the gate is open and the fetch succeeds the attach is the last request, after a failed listing (then alone), after a listing within the limit (alone) and after detaching the excess |
| SecretsProvider.DefaultNeverRotates | secrets/provider.go:127-139 | with updateStage false, as `NewConfigProvider` leaves it, a fetch issues and logs nothing, never panics, and succeeds exactly when the value is present and non-empty |
| SecretsProvider.OutcomesOf | secrets/provider.go:245-253 | consecutive ticks see the outcomes of consecutive fetches |
| SecretsProvider.WatchRunStep | secrets/provider.go:245-272 | the run from tick i is tick i followed by the rest, unless it stopped |
| SecretsProvider.WatchRunAgrees | secrets/provider.go:237-272 | the watch goroutine pushes the shared `Emissions`, ends at `FinalVersion` and runs `TicksRun` ticks |
| SecretsProvider.Provider.constructor | secrets/provider.go:44-56 | updateStage is false and keepStages is 10; no version is remembered and nothing has been issued |
| SecretsProvider.Provider.WithStageUpdates | secrets/provider.go:44-56 | the same provider with updateStage set, which no option of the package does; keepStages is 10 and nothing has been issued |
| SecretsProvider.Provider.UpdateSecretStage | secrets/provider.go:196-217 | the request is issued and its result logged, with InvalidParameterException suppressed; no error is returned |
| SecretsProvider.Provider.CleanVersionStages | secrets/provider.go:144-194 | the requests and logs are exactly those of the clean-up plan, and it reports the panic of an out-of-range slice |
| SecretsProvider.Provider.DetachExcess | secrets/provider.go:181-193 | every label of every excess version with an id is detached, in order |
| SecretsProvider.Provider.DetachLabels | secrets/provider.go:186-192 | one detach per label of one version |
| SecretsProvider.Provider.GetResult | secrets/provider.go:106-142 | the outcome, requests and logs of one fetch, as specified by `FetchOutcome`, `FetchRequests` and `FetchLogs` |
| SecretsProvider.Provider.Get | secrets/provider.go:89-98 | a reader over the secret string; the version is remembered only on success |
| SecretsProvider.Provider.Tick | secrets/provider.go:247-267 | one tick as `TickStep`: the version is remembered before the push, and the callback gets the push when one is installed |
| SecretsProvider.Provider.Watch | secrets/provider.go:237-272 | the loop over fetches does exactly what `WatchRun` says: pushes, final version, ticks run, requests and logs |
| SecretsLegacy.FetchErrors | secrets/secrets.go:94-121 | a configuration error, a failed call, a nil result, nil SecretString or empty SecretString each give their error and issue nothing |
| SecretsLegacy.RotationOnEveryFetch | secrets/secrets.go:127-135 | no updateStage switch: a usable fetch whose version lacks its label detaches, then attaches the label last; a version that has its label issues nothing |
| SecretsLegacy.UpdateLogWarnsEveryFailure | secrets/secrets.go:203-208 | every failed update is warned with its error, InvalidParameterException included; a success is logged at info |
| SecretsLegacy.OutcomesOf | secrets/secrets.go:232-238 | consecutive ticks see the outcomes of consecutive fetches |
| SecretsLegacy.WatchRunStep | secrets/secrets.go:230-257 | the run from tick i is tick i followed by the rest, unless it ended the process |
| SecretsLegacy.WatchRunAgrees | secrets/secrets.go:229-258 | the watch goroutine pushes the shared `Emissions`, ends at `FinalVersion` and runs `TicksRun` ticks |
| SecretsLegacy.Provider.constructor | secrets/secrets.go:42-61 | keepStages is 10, no version is remembered, nothing has been issued |
| SecretsLegacy.Provider.UpdateSecretStage | secrets/secrets.go:192-209 | the request is issued and every failure is warned; no error is returned |
| SecretsLegacy.Provider.CleanVersionStages | secrets/secrets.go:140-190 | the requests and logs are exactly those of the clean-up plan, and it reports the panic of an out-of-range slice |
| SecretsLegacy.Provider.DetachExcess | secrets/secrets.go:177-189 | every label of every excess version with an id is detached, in order |
| SecretsLegacy.Provider.DetachLabels | secrets/secrets.go:182-188 | one detach per label of one version |
| SecretsLegacy.Provider.GetOutput | secrets/secrets.go:78-138 | the outcome, requests and logs of `get`, as specified by `FetchOutcome`, `FetchRequests` and `FetchLogs` |
| SecretsLegacy.Provider.Get | secrets/secrets.go:67-76 | a reader over the secret string; the version is remembered only on success |
| SecretsLegacy.Provider.Tick | secrets/secrets.go:232-252 | one tick as `TickStep`: an unchanged version is skipped and the version is remembered before the push; a panic ends the process |
| SecretsLegacy.Provider.Watch | secrets/secrets.go:229-258 | the loop over fetches does exactly what `WatchRun` says |
| FileDebounce.ExpireTwice | config.go:161-170 | letting the clock run to a and then to b is letting it run to b: a timer fires at most once per arming |
| FileDebounce.ExpireEarly | config.go:161-179 | running the clock forward before the next event changes nothing |
| FileDebounce.OtherPathsIrrelevant | config.go:150-176 | what happens to one path depends only on that path's events: paths never coalesce |
| FileDebounce.PendingBurst | config.go:155-179 | a burst for a path that already has a timer (armed or already fired) gives one callback, 200ms after the last event, with the event the timer captured when it was made |
| FileDebounce.BurstFromFresh | config.go:146-179 | a burst for a new path makes one timer and gives exactly one callback, 200ms after the last event, with the first event |
| FileDebounce.PathRunKeepsTimer | config.go:150-179 | timers are never removed: once a path has a timer it keeps one |
| FileDebounce.ScenarioBurst | config.go:143-181 | five events for /a 10ms apart give one callback at 240ms carrying the first event |
| FileDebounce.ScenarioTwoPaths | config.go:150-176 | an event for /a and one for /b give two callbacks, each with its own event |
| FileDebounce.Debouncer.constructor | config.go:143-151 | the handler starts with an empty timer map |
| FileDebounce.Debouncer.OnEvent | config.go:153-180 | the first event for a path stores a new timer capturing that event; a later event reuses the timer and keeps its event; either way the timer is reset to fire 200ms from now |
| FileDebounce.Debouncer.FireOne | config.go:161-170 | a firing timer runs the callback with its captured event at its deadline; a panic is recovered and logged |
| FileDebounce.Debouncer.AdvanceTo | config.go:161-170 | every timer due by then fires once, at its deadline and in time order; the others are untouched; each panic is logged |
| FileDebounce.Debouncer.Run | config.go:143-181 | events delivered at their instants do to each path exactly what `PathRun` says; the callbacks run in time order, their panics are logged, and the timer map only grows |

## Left out

- AWS clients, credentials, `LoadDefaultConfig` in the constructors, and the `AWS_REGION` override. These are foreign calls and the environment. Their replies are inputs; `SecretsLegacy.Fetch.loadError` stands for the configuration error that `get` can return.
- Goroutines, `select`, tickers, channels, `QuitWatch`, and the blocking push on an unbuffered channel. A poll loop is a loop over fetch results that ends when they run out.
- The `recover` of the Parameter Store watch goroutine is not modelled, because no modelled step of it panics.
- The nil dereferences of `*v.LastModifiedDate` (Parameter Store) and `*result.VersionId` (Secrets Manager) are not modelled. These fields are taken as present. A nil `CreatedDate` is modelled as a panic.
- `json.Marshal` is an opaque function field `encode` that may fail. `Parameters.Decode` (`mapstructure.Decode`) is left out as a library call.
- `time.Format("v2006.0102.150405")` is modelled as "v" followed by the creation time in signed decimal seconds. The model keeps only what the code relies on: the label is injective and is never a live label.
- The order of map iteration is unspecified in Go. The lists of `Changes` and the key/value view are specified as sets, without an order.
- SecretsShared.PlanCleanup, and with it SecretsProvider.Provider.CleanVersionStages and SecretsLegacy.Provider.CleanVersionStages: the plan is built on one fixed, stable insertion sort. Go's `slices.SortFunc` is pdqsort, which is not stable. So versions created in the same second, or undated versions, may fall on the other side of the kept/excess split in Go than in the model. When every version is dated and no two share a creation second, the sorted order is unique, so the model's requests are then Go's.
- SecretsShared.SortNewestFirst: when some entry has no `CreatedDate`, only the permutation is stated and the order is left unspecified, because `slices.SortFunc`'s comparator is not a strict weak order then.
- Sorting and filtering run on sequence values, not in place on the listing's backing array.
- SecretsProvider.Provider.WithStageUpdates: no such constructor exists in the package. It generalises `NewConfigProvider` so that the branch `updateStage` guards (secrets/provider.go:127-139) is modelled at all.
- Log calls outside stage updates and listing are not modelled. These are the Parameter Store watch loop's `GetResult` and "Read buffer" errors, and the secrets watch loops' error on a failed fetch. Also left out are the recovered-panic error line of `secrets/provider.go`, and the "start watching" and `QuitWatch` info lines of every provider. `ParamProvider.Provider` keeps no log.
- SecretsShared.CleanupSparesKeptAndLive: requires unique version ids, which is Secrets Manager's own invariant.
- The debouncer's mutex, the race between its unlocked lookup and its insert, and real time are left out. The timers run on a logical clock.
- Each debouncer timer is a value in the map rather than a shared `*time.Timer`. Only the map refers to it.
- When timers of two paths are due at the same instant, their relative order is not specified.
- The debouncer logs the panic's message without the logger's wording.
- The Go methods `Name` and `Watch` of the providers are left out; Go's `Watch` is `Get` with its error wrapped. The Dafny `Watch` methods model `WatchChannel`'s goroutine instead.
- The viper facade, the loggers, the other option files, the examples and the command-line tool are outside this model.
- The exact text of the wrapped error messages is left out. Errors carry their kind, the identifier and the cause.
