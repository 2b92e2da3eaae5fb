# firenook harness model

Verified Dafny models of the algorithms behind firenook's conformance and endurance harness and its
brand outline tooling, in Dafny 4.11. One module per file, importing only modules of this project;
`dafny verify dfyconfig.toml` checks them together.

- **Recording and comparison.** JSON values, the canonical printer, key-order and array-order
  canonicalisation, the registry that renames run-dependent values, the Pub/Sub normaliser that
  threads the registry through a JSON tree, the final replacement of the push origin, and the
  structural diff of the replay. The central result is that what two runs of one program record
  compares equal exactly when, with each run's own push origin taken out, one run is the other under
  a one-to-one renaming of ids (`Finished`), over whole recordings and trees of any depth.
- **Endurance numbers.** Gauss-Jordan elimination, the four-term harmonic fit built on it, medians
  and quantiles, the Theil-Sen slope and its breakdown bound, over exact reals. Sine and cosine are
  arbitrary functions.
- **Endurance protocols.** The worker pool of the random reads with its generator, the crash
  recovery gate, the soak's scheduling loop with its listener chains, and the seed batches. Each is
  a state machine over every interleaving. The source's mutable state is a class whose validity is
  the machine's invariant, and a driver runs the class through any schedule of events.
- **Observation log.** Reading whole UTF-8 lines behind a byte cursor while the file grows.
- **Brand outlines.** Least-squares fitting of a chain of cubics, de Casteljau splitting, fillets,
  and the SVG path printer and parser. The Euclidean length is a function with its two defining
  facts: it is never negative and its square is the inner product.

Where code and comments disagree the model follows the code: the registry numbers every `register`
call and not only distinct values (`conformance/src/auth/normalize.ts:79` against `:96-99`).

Five properties one would like are false of the code. Each has an input on which it fails and the
condition under which it holds:

- Names collide exactly when one step name is another followed by `#` and a numeral
  (`Registry.ClashBreaks`, `Registry.NamingSoundIff`).
- A schema name is recorded whole exactly when it carries no revision or no second `@` behind it
  (`Recordings.SecondAtIsLost`, `Recordings.NameRestoredIff`, `Recordings.NameResolvesIff`).
- A literal placeholder is confused with what it stands for (`Recordings.LiteralTimeCollides`,
  `Finished.LiteralPlaceholderCollides`). A string is restored from its finished form exactly when it
  holds no literal `{{pushOrigin}}` (`Finished.FinishRestoresIff`), and the clean recordings that
  compare equal to a recording are renamings of it exactly when none of its kept clock fields holds a
  literal `{{time}}` (`Placeholders.KeptSharesIff`, `Placeholders.CleanIff`,
  `Placeholders.CleanRunIff`).
- A regular linear system is refused when elimination meets a pivot below machine epsilon, and only
  then (`LinearSystem.SmallRegularSystemRefused`, `LinearSystem.SolveLinearSystem`).
- The recovery gate ends with a second server alive exactly when a check before a round found a
  commit lost or torn (`RecoveryGate.SecondServerIff`); it has such a run exactly when it plans more
  than one round (`RecoveryGate.TwoServersReachableIff`).

## Model

| member | source | states |
|---|---|---|
| `Json.PrintDecodes` | conformance/src/functions-runtime/fixture.ts:12-19 | a printed value followed by a delimiter is the print of one value only, at any depth: text decodes uniquely |
| `Json.PrintInjective` | conformance/src/functions-runtime/fixture.ts:18 | two values print alike exactly when they are equal |
| `Fixture.PrintsCanonicalForm` | conformance/src/functions-runtime/fixture.ts:12-19 | the canonical printer prints the plain form of the value with all keys sorted |
| `Fixture.CanonicalJsonDecidesEquality` | conformance/src/functions-runtime/fixture.ts:12-19 | canonical texts are equal exactly when the values agree up to object key order |
| `Canonical.CanonicalIffEquivalent` | conformance/src/auth/normalize.ts:327-343 | canonical forms are equal exactly when the values differ only in key order and in the order of the listed arrays, at any depth |
| `Canonical.CanonicalIdempotent` | conformance/src/auth/normalize.ts:327-343 | canonicalising twice is canonicalising once |
| `Canonical.RecordedAndLiveAgree` | conformance/src/auth/normalize.ts:309-343 | sorting only the unordered arrays first does not change the canonical form, so fixture and live view compare on equal terms |
| `Canonical.SortByTextForgetsOrder` | conformance/src/auth/normalize.ts:331 | sorting by printed text gives equal lists exactly for equal multisets |
| `Registry.Registry.Register` | conformance/src/auth/normalize.ts:94-109 | a program constant is left alone without force; otherwise the state becomes the registration's |
| `Registry.Registry.Bind` | conformance/src/auth/normalize.ts:112-115 | both maps gain exactly the bound pair |
| `Registry.TemplateDecodes` | conformance/src/auth/normalize.ts:96-99 | without a clash of step names a template determines its kind, step and ordinal |
| `Registry.NextNameIsFresh` | conformance/src/auth/normalize.ts:96-99 | the next template was never given out before |
| `Registry.RegisterResolves` | conformance/src/auth/normalize.ts:94-109 | the returned name and the new alias both resolve to the registered value, the first name stays canonical, and the invariant is kept |
| `Registry.RunResolves` | conformance/src/auth/normalize.ts:94-115 | after every sequence of registrations and of binds of colon-free names every canonical name resolves to its value, every name resolves to the value of a canonical name, and all other names come from registered steps |
| `Registry.AliasAgrees` | conformance/src/auth/normalize.ts:94-109 | a name and the canonical name of its value resolve to one value |
| `Registry.RunResolvesOwnNames` | conformance/src/auth/normalize.ts:94-115 | at the end of such a run the name of each call, bound, alias or canonical, still resolves to that call's value |
| `Registry.NamesCountCalls` | conformance/src/auth/normalize.ts:96-99 | the first registration of a kind under a step is named `{{kind:step}}` and the n-th one `{{kind:step#n}}`, counting the calls before it |
| `Registry.BindResolves` | conformance/src/auth/normalize.ts:112-115 | binding a fresh name without a colon keeps the invariant |
| `Registry.ClashBreaks` | conformance/src/auth/normalize.ts:99 | a clash of two step names yields, for every kind, a run in which a canonical name resolves to another value |
| `Registry.NamingSoundIff` | conformance/src/auth/normalize.ts:94-109 | for every kind, all runs over a set of step names keep canonical names and the calls' own names resolving exactly when no step name is another one followed by `#` and an ordinal of at least two |
| `TemplateText.ReplaceIsMarkAll` | conformance/src/auth/normalize.ts:131-146 | replacing in text that already holds templates marks only the literal parts |
| `TemplateText.ResolveUndoesReplaceAll` | conformance/src/auth/normalize.ts:131-155 | for text and values free of braces and values that occur in no template, resolving undoes replacing, in whatever order the values are replaced and including whole-number matching of digits, and no value of four or more characters that is not a number is left in the replaced text |
| `TemplateText.ShortValuesStay` | conformance/src/auth/normalize.ts:135-144 | values of fewer than four characters are left alone |
| `TemplateText.NumbersReplacedWhole` | conformance/src/auth/normalize.ts:135-144 | for a value of digits, a number between other characters is replaced exactly when it is the whole value, and the text on both sides is replaced as if it stood alone |
| `RegistryText.ReplaceEntries` | conformance/src/auth/normalize.ts:133-145 | the loop over the sorted entries computes the replacement of all pairs in that order |
| `RegistryText.TemplateRecognised` | conformance/src/auth/normalize.ts:99-150 | every name built from a kind of letters and a plain step name is taken whole by the resolver's pattern |
| `RegistryText.RecordedTextReplays` | conformance/src/auth/normalize.ts:94-155 | after any sequence of registrations with plain kinds and steps, recorded text resolves back to itself and holds no value of four or more characters that is not a number |
| `PubSub.NormalizeValue` | conformance/src/pubsub/normalize.ts:52-80 | the walk over the mutable registry returns the normalised value and leaves the registry in the state of the pure walk |
| `PubSub.NormalizeIdArray` | conformance/src/pubsub/normalize.ts:57-60 | registers every non-empty string of an id array in order |
| `PubSub.NormalizeMembers` | conformance/src/pubsub/normalize.ts:64-68 | walks the members in key order, threading the registry |
| `RecordedKeys.IdKeysName` | conformance/src/pubsub/normalize.ts:23-31 | at each of the seven id keys, written out, a non-empty string becomes a name of the listed kind that resolves to it, on a fresh counter `{{kind:step}}` |
| `RecordedKeys.MessageIdsName` | conformance/src/pubsub/normalize.ts:34-36 | under `messageIds` every non-empty string becomes a name that resolves to it and other elements stay |
| `RecordedKeys.ClockKeysBlank` | conformance/src/pubsub/normalize.ts:53-55 | at each of the seven clock keys, written out, a date text and an object of seconds and nanos become the time placeholder, and so does a date at `nextPageToken` |
| `RecordedKeys.SchemaNamesName` | conformance/src/pubsub/normalize.ts:74-77 | a schema name keeps its base and its revision becomes a name that resolves to it |
| `RecordedKeys.OtherStringsStay` | conformance/src/pubsub/normalize.ts:70-79 | every other string stays and registers nothing |
| `Text.LessIff` | conformance/src/pubsub/normalize.ts:65 | keys are walked in the order in which a proper prefix, or the smaller character at the first difference, comes first |
| `TwoRuns.RegisterLinked` | conformance/src/auth/normalize.ts:94-109 | registering corresponding ids in registries linked by a renaming returns one name and keeps them linked |
| `TwoRuns.Forward` | conformance/src/pubsub/normalize.ts:52-80 | trees alike under a one-to-one renaming normalise alike and leave linked registries |
| `Recordings.Back` | conformance/src/pubsub/normalize.ts:52-80 | equal output from registries that gave out the same names forces the trees to be alike under the links the registries then hold |
| `Recordings.TwoRunsCompareEqual` | conformance/src/pubsub/normalize.ts:52-80 | two normalised recordings of one program compare equal exactly when a one-to-one renaming that relates the push origins turns one into the other |
| `Recordings.EqualRunsGiveRenaming` | conformance/src/pubsub/normalize.ts:52-80 | the renaming is produced from the two recordings |
| `Recordings.NameRestoredIff` | conformance/src/pubsub/normalize.ts:74-77 | with the revision of the recorded name looked up in the registry the whole name comes back exactly when it carries no revision or no second `@` behind it |
| `Recordings.NameResolvesIff` | conformance/src/auth/normalize.ts:148-155 | the registry's `resolve` gives a recorded schema name without braces back whole exactly when it carries no revision or no second `@` behind it |
| `Recordings.SecondAtIsLost` | conformance/src/pubsub/normalize.ts:74-77 | two different names with a second `@` normalise to one value |
| `Recordings.LiteralTimeCollides` | conformance/src/pubsub/normalize.ts:53 | the input of the failing case: a literal time placeholder and a date normalise alike and no renaming relates them |
| `Placeholders.KeptSharesIff` | conformance/src/pubsub/normalize.ts:53-55 | a value kept at a clock key shares its output with a blanked one exactly when it is the literal time placeholder |
| `Placeholders.CleanIff` | conformance/src/pubsub/normalize.ts:52-80 | at any depth, every clean value recorded alike is a renaming of a value exactly when that value is clean: no kept clock field holds the literal time placeholder |
| `Placeholders.CleanRunIff` | conformance/src/pubsub/runner.ts:236-247 | every clean recording of the same steps that compares equal is a renaming of a recording exactly when that recording is clean |
| `Finished.Commutes` | conformance/src/pubsub/normalize.ts:87-100 | replacing the origin in a normalised value is normalising the value with its origin taken out of ordinary strings, and the registry ends the same |
| `Finished.RecordedRunsCompareEqual` | conformance/src/pubsub/runner.ts:236-247 | what two runs of one program record, origins replaced, compares equal exactly when a one-to-one renaming that relates the origins carries one run to the other with each run's own origin taken out |
| `Finished.UrlOriginsAreApart` | conformance/src/pubsub/runner.ts:99 | the condition on origins holds of every origin with a slash and without `@`, for steps without a slash |
| `Finished.EndpointsRecordAlike` | conformance/src/pubsub/runner.ts:186-188 | endpoints of two runs that differ in their origin only are recorded alike |
| `Finished.FinishRestores` | conformance/src/pubsub/normalize.ts:87-94 | a string without a literal placeholder is restored from its finished form |
| `Finished.FinishRestoresIff` | conformance/src/pubsub/normalize.ts:87-94 | for an origin without braces that is no part of the placeholder, a string is restored from its finished form exactly when it holds no literal placeholder |
| `Finished.UrlOriginsTellApart` | conformance/src/pubsub/runner.ts:99 | that condition holds of every origin with a slash and without braces |
| `Finished.EqualFinishedText` | conformance/src/pubsub/normalize.ts:87-94 | strings without a literal placeholder that finish alike are one text with each run's origin in it |
| `Finished.LiteralPlaceholderCollides` | conformance/src/pubsub/normalize.ts:87-94 | a literal placeholder and the origin it stands for are recorded alike |
| `Replay.ObjectsSameIff` | conformance/src/functions-runtime/replay-firenook.ts:420-437 | objects are the same up to key order exactly when every key looks up the same value |
| `Replay.EmptyDiffIff` | conformance/src/functions-runtime/replay-firenook.ts:420-437 | the diff is empty exactly when both sides are the same up to key order or both missing |
| `Replay.EntriesAreLeaves` | conformance/src/functions-runtime/replay-firenook.ts:422-436 | every entry holds two different values that are not both objects and not both arrays of one length |
| `ReplayPaths.ValueAt` | conformance/src/functions-runtime/replay-firenook.ts:439-446 | the loop walks the parts of the printed path |
| `ReplayPaths.DiffPathsReadBack` | conformance/src/functions-runtime/replay-firenook.ts:420-446 | reading each entry's path back gives that entry's expected and actual values, for keys that are non-empty and free of dots and brackets |
| `ReplayPatch.PatchRebuilds` | conformance/src/functions-runtime/replay-firenook.ts:420-446 | applying all entries of a diff below a path rebuilds the other side up to key order |
| `ReplayPatch.DiffIsComplete` | conformance/src/functions-runtime/replay-firenook.ts:420-446 | applying every entry to the expected value gives the actual value up to key order |
| `LinearSystem.FindPivot` | conformance/src/endurance/oscillation.ts:25-30 | the pivot is the first row of greatest magnitude in its column from the diagonal down |
| `LinearSystem.SwapKeeps` | conformance/src/endurance/oscillation.ts:31 | swapping two rows keeps the solution set |
| `LinearSystem.ScaleKeeps` | conformance/src/endurance/oscillation.ts:36-42 | dividing a row keeps the solution set |
| `LinearSystem.ReduceKeeps` | conformance/src/endurance/oscillation.ts:47-56 | subtracting a multiple of another row keeps the solution set |
| `LinearSystem.ClearColumn` | conformance/src/endurance/oscillation.ts:43-57 | clearing in place computes the cleared rows, keeps the solution set and adds one unit column to the finished ones |
| `LinearSystem.ReducedSystemSolved` | conformance/src/endurance/oscillation.ts:59 | when all columns are unit columns the last column is the only solution |
| `LinearSystem.CompletesIff` | conformance/src/endurance/oscillation.ts:24-58 | elimination gets through all columns exactly when none leaves only entries below machine epsilon from the diagonal down |
| `LinearSystem.SolveLinearSystem` | conformance/src/endurance/oscillation.ts:21-60 | a returned vector solves the original system and is its only solution; the error is raised exactly when elimination of the original system is stuck at some column |
| `LinearSystem.SmallRegularSystemRefused` | conformance/src/endurance/oscillation.ts:33-35 | one equation with a non-zero coefficient has exactly one solution and is refused exactly when the coefficient is below machine epsilon |
| `LeastSquares.NormalEquationsMinimise` | conformance/src/endurance/oscillation.ts:71-92 | coefficients that satisfy the normal equations leave the least residual sum of squares of all coefficients, for any basis values |
| `Harmonic.BuildNormalEquations` | conformance/src/endurance/oscillation.ts:71-91 | the accumulated matrix and values are the normal equations of the four-term basis |
| `Harmonic.SumSquares` | conformance/src/endurance/oscillation.ts:94-104 | the two loops sum the squared residuals of the coefficients and the squared deviations from the mean |
| `Harmonic.SolutionFits` | conformance/src/endurance/oscillation.ts:92-105 | the only solution is optimal and leaves no more than the deviations from the mean |
| `Harmonic.SignalRecovered` | conformance/src/endurance/oscillation.ts:69-104 | readings that lie on a trend plus one wave of the period, written out around the median time, give back its four coefficients with score 0 and R² 1 |
| `Harmonic.MeanIsLeast` | conformance/src/endurance/oscillation.ts:93 | the mean is the one level from which the readings deviate least |
| `Harmonic.FitHarmonic` | conformance/src/endurance/oscillation.ts:62-113 | a wave of the period is recovered exactly; the coefficients are the only ones meeting the normal equations and are optimal, score and R² lie in [0, 1], and the error is raised exactly for too few samples, a period not above zero, or normal equations that elimination refuses |
| `Harmonic.JointScoreRange` | conformance/src/endurance/oscillation.ts:125-126 | a joint score lies between 0 and the number of runs |
| `Harmonic.FindJointHarmonicPeriod` | conformance/src/endurance/oscillation.ts:115-139 | the result is the first period of least joint score among all whole steps of the range, and there is none exactly when there are no runs, the range is empty, or some fit is refused |
| `Harmonic.PeriodRecovered` | conformance/src/endurance/oscillation.ts:115-139 | runs that are waves of one period of the range get joint score 0, at that or a smaller period |
| `Statistics.MajorityIsMedian` | conformance/src/endurance/statistics.ts:13-23 | a value held by more than half of the list is its median |
| `Statistics.HalfZeroMedian` | conformance/src/endurance/statistics.ts:13-23 | when no value is negative and at most half are zero the median is positive |
| `Statistics.MedianOfArranged` | conformance/src/endurance/statistics.ts:13-23 | the median can be read off any ascending arrangement of the values |
| `Statistics.QuantileIgnoresOrder` | conformance/src/endurance/oscillation.ts:167-178 | the quantile depends only on the multiset of values |
| `Statistics.QuantileMonotone` | conformance/src/endurance/oscillation.ts:167-178 | the quantile never falls as the fraction grows |
| `Statistics.QuantileWithinRange` | conformance/src/endurance/oscillation.ts:167-178 | every quantile lies between the least and the greatest value, which are the quantiles at 0 and 1 |
| `Statistics.QuantileInterpolates` | conformance/src/endurance/oscillation.ts:167-178 | the quantile at the share that k + w is of the last index lies w of the way from the k-th to the next value of any ascending arrangement |
| `Statistics.NoQuantileIff` | conformance/src/endurance/oscillation.ts:167-170 | there is no quantile exactly for an empty list or a fraction outside [0, 1] |
| `Statistics.MedianIsMiddleQuantile` | conformance/src/endurance/statistics.ts:13-23 | the median is the quantile at one half, for every list |
| `TheilSen.TheilSenBytesPerHour` | conformance/src/endurance/statistics.ts:25-49 | the nested loops take the median of the slopes of all pairs with different times |
| `TheilSen.Breakdown` | conformance/src/endurance/statistics.ts:25-49 | when m of n samples lie on one line and 2m(m-1) > n(n-1), the result is that line's hourly slope wherever the others lie |
| `TheilSen.BreakdownIsSharp` | conformance/src/endurance/statistics.ts:25-49 | for every m and n with 2m(m-1) <= n(n-1), n samples with m on a line whose result is not that line's slope |
| `TheilSen.RobustIff` | conformance/src/endurance/statistics.ts:25-49 | all samples with m of n on a line give that line's slope exactly when 2m(m-1) > n(n-1) |
| `TheilSen.WarmupIrrelevant` | conformance/src/endurance/statistics.ts:51-64 | dropping every sample taken before warm-up ended leaves the sustained slope unchanged |
| `TheilSen.SustainedUsesWindow` | conformance/src/endurance/statistics.ts:51-64 | the sustained slope is the slope of exactly the samples of the last window, and there is none before that window lies behind the warm-up |
| `Generator.StepIsAffine` | conformance/src/endurance/import-gate.ts:162 | 32-bit multiplication and unsigned shift together are the affine step with multiplier 1664525 and increment 1013904223 modulo 2^32 |
| `Generator.ReturnsIff` | conformance/src/endurance/import-gate.ts:162 | the generator is back at a state after k steps exactly when k is a multiple of 2^32 |
| `Generator.NoEarlyRepeat` | conformance/src/endurance/import-gate.ts:162 | no state repeats within 2^32 consecutive steps |
| `ReadPool.Workers.Take` | conformance/src/endurance/import-gate.ts:157-163 | keeps the pool valid; the k-th read taken uses the k-th generator state and no read is settled or counted by it; past the total the worker returns |
| `ReadPool.Workers.Settle` | conformance/src/endurance/import-gate.ts:166-186 | keeps the pool valid; a read settles once, and the failure count is the number of reads that failed so far |
| `ReadPool.RunKeepsInvariant` | conformance/src/endurance/import-gate.ts:150-190 | the invariant holds after every interleaving |
| `ReadPool.FinishedRun` | conformance/src/endurance/import-gate.ts:145-191 | every index below the total was read exactly once, the k-th read used the k-th generator state, and the count is the number of failed reads |
| `ReadPool.VerifyRandomReads` | conformance/src/endurance/import-gate.ts:145-191 | under every scheduler the pool finishes and returns exactly the number of reads below the total that fail |
| `ReadPool.ReadsUseDistinctStates` | conformance/src/endurance/import-gate.ts:162 | no two reads share a generator state when there are at most 2^32 of them |
| `RecoveryNames.DocumentNameInjective` | conformance/src/endurance/recovery-gate.ts:275-277 | a document name determines its id and side |
| `RecoveryNames.SeedMarkerIff` | conformance/src/endurance/recovery-gate.ts:164-169 | a seed id carries the counted marker exactly when it is the first of its round |
| `RecoveryNames.LiveLacksMarker` | conformance/src/endurance/recovery-gate.ts:164-169 | no live id carries the marker |
| `RecoveryGate.Harness.Perform` | conformance/src/endurance/recovery-gate.ts:43-169 | keeps the harness valid beside any server; while the server forgets nothing, every acknowledged commit survives and nothing is counted lost or torn; a mismatch is set exactly when a check before a round fails; every check reports what is missing from the store and what is torn |
| `RecoveryGate.VerifyRecovered` | conformance/src/endurance/recovery-gate.ts:207-252 | the two loops count the acknowledged commits not fully present and the attempted commits present on one side only |
| `RecoveryGate.EveryCheckReports` | conformance/src/endurance/recovery-gate.ts:109-111 | on every run, whatever the server forgot, a check reports the number of acknowledged commits with a side missing and of attempted commits with one side stored |
| `RecoveryGate.StepSafe` | conformance/src/endurance/recovery-gate.ts:43-169 | every step against a server that keeps commits whole and answers only what is durable keeps the invariant |
| `RecoveryGate.RunSafe` | conformance/src/endurance/recovery-gate.ts:43-169 | the invariant holds after every such run, with the kill at any point |
| `RecoveryGate.FaithfulRun` | conformance/src/endurance/recovery-gate.ts:43-169 | acknowledged commits were attempted and are present, no two attempts share a document name, nothing is lost or torn, the mismatch break is never taken and one server is used at most |
| `RecoveryGate.FinishedRunCountsRounds` | conformance/src/endurance/recovery-gate.ts:164-169 | with at least one seed commit per round, the counted rounds are the rounds executed |
| `RecoveryGate.CountCompletedRounds` | conformance/src/endurance/recovery-gate.ts:164-169 | the loop counts the acknowledged ids that carry the marker |
| `RecoveryGate.RunRecoveryGate` | conformance/src/endurance/recovery-gate.ts:43-169 | under every schedule against a server that forgets nothing the gate reports nothing lost or torn and, once finished, every planned round; on every schedule it ends with two servers exactly when a check before a round failed, a closing check reports what is missing and torn, and the gate passes exactly when rounds, acknowledgements and both counts are as the manifest allows |
| `RecoveryGate.KillDelays` | conformance/src/endurance/recovery-gate.ts:71-76 | the delay of each round is the minimum plus the next generator state modulo the width of the range, so it lies in the range |
| `RecoveryGate.SecondServerIff` | conformance/src/endurance/recovery-gate.ts:43-108 | on every run, faithful or not, the finished gate has two servers alive exactly when the check before some round found a commit lost or torn, and one otherwise |
| `RecoveryGate.TwoServersReachableIff` | conformance/src/endurance/recovery-gate.ts:43-108 | some run, with one forgotten document, finishes with two servers alive exactly when more than one round is planned |
| `Soak.ClassesWriteDisjointDocuments` | conformance/src/endurance/soak.ts:406-484 | operations of different classes, and listener operations of different slots, write different documents |
| `Soak.ListenersTakeTurns` | conformance/src/endurance/soak.ts:419-421 | the k-th listener operation writes slot k modulo the number of listeners |
| `Soak.EveryListenerHasItsTurn` | conformance/src/endurance/soak.ts:419-421 | as many consecutive listener operations as there are listeners visit each slot exactly once |
| `Soak.OtherDocumentsTakeTurns` | conformance/src/endurance/soak.ts:432-447 | the k-th large and the k-th transaction operation write document k modulo their count, where no earlier rule takes the index |
| `Soak.Workload.Resume` | conformance/src/endurance/soak.ts:172-204 | keeps the workload valid, starts at most one operation, keeps the limit whatever the clock shows, and after a race never waits for another |
| `Soak.Workload.SettleOperation` | conformance/src/endurance/soak.ts:406-484 | keeps the workload valid; the operation leaves the flight and is counted once, as completed or as failed |
| `Soak.Workload.SettleWrite` | conformance/src/endurance/soak.ts:419-431 | keeps the workload valid; the write is counted once, and after a success the slot expects a newer sequence than before, which without earlier failures is the stored one |
| `Soak.Workload.RecordRollup` | conformance/src/endurance/soak.ts:553-580 | keeps the workload valid; with the interval reported now the intervals logged so far add up to the totals |
| `Soak.RaceFreesPlace` | conformance/src/endurance/soak.ts:192-203 | when a race resolves an operation has left the set, so a place is free and the loop does not race again |
| `Soak.BeginsIff` | conformance/src/endurance/soak.ts:186-203 | an operation begins exactly when its time came, nothing asked for a stop, a place is free and the deadline has not passed; after a race exactly when the second reading is before the deadline |
| `Soak.EndsIff` | conformance/src/endurance/soak.ts:172-200 | the loop ends exactly when the plan is done, a stop is asked for or a reading is past the deadline |
| `Soak.StepInvariant` | conformance/src/endurance/soak.ts:172-204 | every step keeps the invariant, the in-flight limit included, whatever the clock shows |
| `Soak.EveryRunConserves` | conformance/src/endurance/soak.ts:172-204 | on every run and under every clock in-flight operations stay within the limit, scheduled operations are the completed, failed and unsettled ones, the failure counter is the failed operations and the other failures, and the rollups add up to the totals |
| `Soak.ExpectedNeverDecreases` | conformance/src/endurance/soak.ts:419-431 | no step lowers the sequence expected in a listener slot |
| `Soak.WritesRunInOrder` | conformance/src/endurance/soak.ts:419-431 | the writes waiting in a slot have increasing sequences, all at least what the slot expects |
| `Soak.DrainedSlotMatches` | conformance/src/endurance/soak.ts:419-431 | a drained slot without a failed write expects exactly the stored sequence |
| `Soak.InFlightReachableIff` | conformance/src/endurance/soak.ts:172-204 | some run has k operations in flight exactly when k is within the limit and the first k operations are planned before the deadline |
| `Soak.RunWorkload` | conformance/src/endurance/soak.ts:172-204 | driven through every interleaving under every clock the workload keeps the limit and conserves its operations, and drained slots without a failed write match the store |
| `SeedBatches.DrainPendingWrites` | conformance/src/endurance/soak.ts:690-697 | closes the open batch and throws exactly when one of its writes was rejected |
| `SeedBatches.SeedWorkingSet` | conformance/src/endurance/soak.ts:641-698 | succeeds exactly when no write fails; then every ordinal was written once and in order, no batch exceeds the count or byte limit unless it is one larger payload, and no batch was closed early |
| `Utf8.DecodeEncoded` | conformance/src/functions-runtime/runner.ts:471-493 | whole characters decode to themselves whatever bytes follow |
| `Utf8.CutHasNoNewline` | conformance/src/functions-runtime/runner.ts:471-493 | the bytes of a cut character never decode to a newline |
| `Utf8.PrefixIsWholeAndCut` | conformance/src/functions-runtime/runner.ts:471-493 | any byte prefix of encoded text is whole characters and part of at most one more |
| `Utf8.EncodedForm` | conformance/src/functions-runtime/runner.ts:479-491 | one to four bytes by code point, a leading byte marked with the count and six bits in each other byte |
| `ObservationLog.ReadAt` | conformance/src/functions-runtime/runner.ts:471-493 | a read behind a line boundary returns exactly the complete lines visible and the offset behind them |
| `ObservationLog.ReadsWrittenLines` | conformance/src/functions-runtime/runner.ts:471-493 | a reader behind the lines already read gets exactly the lines written since, without blank ones and without an unfinished last line, and its cursor stands behind them |
| `ObservationLog.Satisfied` | conformance/src/functions-runtime/runner.ts:495-505 | the check by crossing off names holds exactly when the wanted handlers are covered as a multiset |
| `ObservationLog.CoversGrows` | conformance/src/functions-runtime/runner.ts:495-505 | further observations never undo a satisfied expectation |
| `ObservationLog.CollectObservations` | conformance/src/functions-runtime/runner.ts:507-529 | the step returns the complete lines up to the settled size, times out exactly when no poll covered the expectation, and otherwise covers it although it reads again after settling |
| `ObservationLog.StepsRecordEachLineOnce` | conformance/src/functions-runtime/runner.ts:471-529 | successive steps together record every complete line up to the cursor exactly once, for any growth of the file and a torn last line |
| `Curves.Taylor1` | brand/source/fitcurve.py:3-8 | the two derivative formulas are the curve's derivatives: the Taylor expansion is exact |
| `Curves.SplitTraces` | brand/source/polish_outline.py:57-60 | the two parts trace the curve on [0, t] and on [t, 1] |
| `CurveFit.ChordOrder` | brand/source/fitcurve.py:10-11 | the division is defined exactly when the points do not all coincide, and then the parameters run from 0 to 1 in the order of the points |
| `CurveFit.ChordShares` | brand/source/fitcurve.py:10-11 | each step takes the share of the parameters that its length is of the whole way |
| `CurveFit.CramerSolves` | brand/source/fitcurve.py:20-21 | the two arm lengths meet both normal equations |
| `CurveFit.GenMinimises` | brand/source/fitcurve.py:12-24 | whenever the solved arms are used, no other pair of arm lengths leaves a smaller sum of squared distances |
| `CurveFit.FallbackArms` | brand/source/fitcurve.py:22-23 | when the solved arms are not used both arms are a third of the distance between the ends |
| `CurveChain.StepExpands` | brand/source/fitcurve.py:25-30 | numerator and denominator of the reparametrisation are the first and second derivative of half the squared distance, so the step is Newton's |
| `CurveChain.StepIsNewton` | brand/source/fitcurve.py:25-30 | the step goes to the zero of the derivative's tangent or to the end of [0, 1] on the way there, and stays where the derivative has no slope |
| `CurveChain.ArgMax` | brand/source/fitcurve.py:31-32 | the first index of the greatest distance |
| `CurveChain.Attempt` | brand/source/fitcurve.py:37-41 | one fit for given parameters reports its worst distance and is acceptable when that is below the tolerance |
| `CurveChain.Fit` | brand/source/fitcurve.py:33-44 | terminates on every run without a point repeated two places later and returns a chain whose pieces run between consecutive break points, pass within the tolerance of every point between, and at each inner break arrive and leave along the chord across its two neighbours; two points give arms a third of their distance |
| `CurveChain.JoinIsSmooth` | brand/source/fitcurve.py:42-44 | at every inner join the chain leaves in the direction in which it arrived |
| `CurveChain.FitOpen` | brand/source/fitcurve.py:45-48 | fits with the given end tangents; one that is not given points from the end towards the point a few places inside |
| `Fillets.TAtDist` | brand/source/polish_outline.py:61-70 | the halvings end in a bracket of known width whose inner ends lie on the expected sides of the distance; when the whole curve goes from one side to the other, so does its part over the bracket |
| `Fillets.FilletKeepsClosed` | brand/source/polish_outline.py:95-107 | trimming both neighbours of a corner and inserting its fillet keeps the outline closed, also for a single run |
| `Fillets.FilletIsSmooth` | brand/source/polish_outline.py:102-107 | a fillet leaves along the trimmed curve before it and arrives along the one after it, with handles of the given length |
| `Fillets.InsertFillets` | brand/source/polish_outline.py:94-109 | after all corners the chain is connected and closed and has one more cubic for each non-zero trim, and each corner was cut where its two curves cross its trim distance |
| `Fillets.Polish` | brand/source/polish_outline.py:86-109 | the outline is made of chains fitted to the sampled runs with their own tangents and the corners between them rounded, and is closed and connected |
| `PathText.WritePath` | brand/source/polish_outline.py:51-55 | the loop writes the path text |
| `PathText.ParseCubics` | brand/source/geom.py:2-18 | the loop computes the meaning of the token list, including its failures and the inputs on which it no longer advances |
| `PathText.LineReads` | brand/source/geom.py:12-13 | two numbers after `L`, or after a move or a line, add a segment that runs straight to that point at constant speed |
| `PathText.ClosingReads` | brand/source/geom.py:14-17 | `Z` returns to the start along a straight segment unless it is within a millionth of it |
| `PathText.MovedTraces` | brand/source/geom.py:18-19 | a translated segment traces the translated curve |
| `PathText.NumberReadsBack` | brand/source/polish_outline.py:52 | a number printed with two decimals reads back as the coordinate rounded to hundredths |
| `PathText.HundredthsRound` | brand/source/polish_outline.py:52 | a coordinate is rounded to the nearest hundredth, and of two equally near ones to the even one |
| `PathText.RoundedNear` | brand/source/polish_outline.py:52 | rounding moves a coordinate by at most half a hundredth |
| `PathText.HundredthsKept` | brand/source/polish_outline.py:52 | a whole number of hundredths is printed exactly |
| `PathText.PathReadsBack` | brand/source/geom.py:2-18 | parsing the text of a connected chain gives the chain rounded to hundredths followed by what closes it |
| `PathText.NothingAddedIff` | brand/source/geom.py:15-17 | no closing segment is added exactly when the printed ends meet |
| `PathText.ClosedPathRoundTrip` | brand/source/geom.py:2-18 | a closed connected chain at printed precision comes back unchanged |

## Left out

- Floating-point rounding: all numeric results are over exact reals.
- Amplitude and phase of the harmonic fit, `percentile` and `circularPhaseSlopes`: further formulas over the same data.
- The salt, JWT and base64 branches of the auth normaliser, and named divergences in `compareStep`: more cases of the same walk.
- Finished.RecordedRunsCompareEqual: a step's value is recorded as it was normalised; the flattening of stream replies with their repeated properties dropped, and the dropping and sorting of repeated pushes, are not part of the model, so it speaks of the messages and pushes in the order they were normalised.
- PubSub.NormalizeValue: keys that name members every JavaScript object inherits, such as `constructor` or `toString`, are treated as unlisted; the two key tables are object literals, so the code finds the inherited member there and registers under it.
- JavaScript's reordering of integer-like keys and the printing of negative zero: objects are lists of pairs with distinct keys, numbers are printed tokens.
- Lone surrogates: characters are Unicode scalar values, so every string has an encoding.
- The decoder replaces each byte of a malformed sequence by one replacement character, where the platform decoder may replace several by one; only newlines matter to the reader.
- The final sort of a step's observations by a stable key: the model keeps them in file order.
- Failed file reads, JSON parsing of observation lines and the timing of polls: the file sizes seen at each poll are parameters.
- RegistryText.ReplaceEntries: takes the entries already sorted; the results hold for every order, so longest-first is one of them.
- Soak: an operation's counters and its removal from the in-flight set are one step; in the code a microtask lies between.
- Soak.Workload.RecordRollup: the transaction, latency and memory figures of a rollup line are not part of the model; they feed no counter.
- Fillets.TAtDist: that the bracket holds a crossing follows from continuity of the curve, which is not part of the model.
- Listener snapshots, memory sampling, stalls and convergence waits of the soak.
- Process spawning, sockets, HTTP and gRPC clients, durable log files: environment steps of the machines.
- Gaussian smoothing, corner detection, resampling, and the angle that gives a fillet's handle length; the handle is a parameter. `norm` of a zero vector, which the source turns into not-a-number, is the zero vector in `Fillets.Direction`.
- PathText.ParseCubics: takes the translation as a point instead of reading it from the transform text, fails at once on a curve before the first move instead of at the end, and reads ASCII digits only; the loop carries the unread tokens and the pen as values, and the branches of one turn are the function `PathText.Step`, so the source's index and its updates in place are not captured.
- CurveChain.Fit: the contract states what the fit promises; how many reparametrisation rounds precede a split, and that the split is at the worst point, follow from the body only.
- The Rust engine, the console and the build files.
