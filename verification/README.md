# procfit, verified

A Dafny model of the parts of procfit where the claims are about whole runs or whole trees, with their
proofs. Each part is modelled twice where the program changes state: as functions on values, about which
the properties are proved, and as methods with the program's own loops and updates, proved equal to those
functions.

| part | files | what is proved about it |
|---|---|---|
| control plane | `Identity`, `Kernel`, `FreezeGuard`, `Control`, `Operations`, `Control*`, `Manager` | who may ever be touched, where originals come from, dry runs, restores, freezes, drift, when reconciling twice is idle, over every run with pid reuse and refused calls |
| query engine | `QueryModel`, `QuerySort`, `QueryBuild`, `Query*`, `Folds`, `Sequences` | independence of the input order, leaves and sums of the tree, what a filter, a sort and a limit keep |
| expressions | `Expr*`, `ByteOrder` | the parser is the grammar; printing, writing out and compiling give the tree back; evaluation reads only validated fields |
| state store | `StoreDisk`, `StoreSafety`, `StoreNames`, `StoreReuse`, `StateStore` | exactly when every moment of an interleaving of Saves is crash safe; durability; what names have to do with it |
| explorer | `TuiView`, `TuiFold`, `TuiPaths`, `TuiSeparator`, `TuiLine`, `TuiFilter`, `TuiGate`, `TuiSafety`, `TuiModel` | the dry-run gate, modes, visible rows, parents, folding, the scroll window, the filter line |
| sampler and hostname cache | `Sampling`, `Sampler`, `HostCache` | when a rate is there and that rates add up; the cache agrees with uncached reads |
| presets, CSV | `Presets`, `CsvRows` | the check accepts exactly acyclic inheritance; depth-tagged rows determine the tree |

## How to read it

**Kernel and environment.** `Kernel.World` holds processes, frozen cgroups and the calls that will be
refused. It stays fixed during one manager operation; between operations a run may replace it by any other
one, so processes start, exit, are reniced, and pids are reused. The manager's mutating calls go to a trace
that only the proofs read; `ControlTrace.OperationsAreTraced` shows that the trace is what happened.

**Shared records.** A binding points to its nice and stop records, and two bindings of one process can
point to the same record. Records are numbered cells, and `births` remembers where in the trace each was
created.

**Numbers.** Floating point values are reals. Counters that the sampler adds wrap at 64 bits.

**Regular expressions, clocks and callbacks** are parameters: which patterns compile and match, the clock
reading of a sample, the answers of the control callback.

## Results worth knowing

Where the code does not do what its comments or documentation say, the model follows the code.

* `Save` removes its temporary name when it returns, although the rename has already freed it. If the random
  name is drawn again in between, twice, a half-written file can be renamed into place
  (`StoreReuse.ReuseBreaksSafety`); drawn again once, it does no harm (`StoreReuse.ReuseCanBeHarmless`).
  `StoreSafety.CrashSafeExactly` says which runs are safe: those in which each successful rename finds a synced
  file under its name. Runs whose names are fresh are among them (`StoreNames.CrashSafe`).
* Renicing outside -20..19 is clamped by the kernel, reads back as drift, and an unforced restore then keeps
  it (`ControlLimits.ClampedNiceStays`). `ControlRestore.NiceThenRestore` gives the exact condition for getting the
  old value back.
* Folding under the cursor keeps one's place exactly when no group above has the same path
  (`TuiFold.ToggleKeepsPlaceExactly`). Sibling keys that differ and hold no unit separator ensure that; with a
  separator in a command name, two groups of a query result can share a path (`TuiSeparator.SeparatorBreaksFold`).
* The escapes that a bare-word filter adds are taken back by the lexer, so metacharacters of the word stay
  live (`TuiFilter.BareWordPattern`, `TuiFilter.DotStaysLive`); the search is the intended one exactly for words without any.
* A mixed metric shows its first value. With nothing filtered out or cut off, a result is the same for every
  order of the processes exactly when the processes of each top group agree on such metrics
  (`QueryMixed.OrderFreeExactly`).
* A second reconcile with nothing in between changes nothing exactly when, for each process that some policy
  would reapply to, the last such policy asks for what the last policy to write in the first pass asked for
  (`ControlReconcile.SecondReconcileExactly`). Policies that agree about their processes meet this, and so do
  policies that all reapply or all do not (`ControlReconcile.SameModeStands`); a mix that disagrees need not
  (`ControlLimits.SecondReconcileCanWrite`).
* For a target that listed a process twice, the preview of a restore could be wrong
  (`ControlLimits.PreviewMisleadsOnTwice`); no caller in the repository lists one twice.
* A dry-run renice records its intent (`ControlDryRun.DryNiceSetsIntentOnly`).

## Model

| member | source | states |
|---|---|---|
| Identity.KeyInjective | internal/model/identity.go:43-47 | two process identities have the same map key exactly when they are equal, whatever the boot id contains |
| Identity.ThreadKeyInjective | internal/model/identity.go:69-72 | the same for thread identities |
| Identity.DecimalInjective | internal/model/identity.go:45-47 | different numbers are written differently |
| Kernel.Controller.SetNice | internal/procfs/control_linux.go:74-81 | a permitted renice of an existing process sets the clamped value and nothing else; a refused one changes nothing |
| Kernel.Controller.FreezeCgroup | internal/procfs/control_linux.go:53-64 | an accepted call freezes or thaws that cgroup and no other |
| FreezeGuard.FreezeGuardExact | internal/control/freeze_guard.go:14-48 | on kernel paths the guard refuses the root, procfit's cgroup and its component-wise ancestors, and login units, and nothing else |
| FreezeGuard.AncestorIsPrefix | internal/control/freeze_guard.go:28-32 | the textual test is the component-wise prefix test |
| FreezeGuard.BaseOfPath | internal/control/freeze_guard.go:36-48 | the name tested for a login unit is the last component |
| ControlRuns.NobodyElseIsTouched | internal/control/safeguards.go:20-31 | in every run, each nice and signal call went to a pid above 1 that is neither procfit nor its parent and was held by the process it was meant for, restore and reconcile included |
| ControlRuns.NoSelfFreeze | internal/control/manager_ops.go:243-291 | no unforced freeze in any run hits procfit's own cgroup, an ancestor of it, the root or a login unit |
| ControlRuns.OriginalIsFirstReading | internal/control/manager.go:169-204 | every nice call goes through a record captured earlier for the same process and pid, once, and whose original is still the value read then |
| ControlRuns.OriginalsNeverChange | internal/control/manager_ops.go:79-117 | no operation and no further run changes a captured original |
| ControlRuns.StopsAreOwned | internal/control/manager_ops.go:57-77 | a continue goes out only while a stop of ours through the same record is in force, and the flag is up exactly when the last delivered signal was the stop |
| ControlSafety.RestoreNiceKeeps | internal/control/manager_ops.go:79-117 | restoring keeps the safety invariant although it never consults the safeguards: the captured record is what makes the pid allowed |
| ControlSafety.ReconcileDriftKeeps | internal/control/reconcile.go:86-116 | every drift mode keeps the safety invariant and all originals |
| ControlSafety.ApplyStopKeeps | internal/control/manager_ops.go:183-221 | stopping and continuing keeps flags, records and trace consistent, delivered or refused |
| ControlSafety.PerformKeeps | internal/control/manager_ops.go:13-117 | any one action on one binding keeps the invariant and the binding's identity |
| ControlRuns.ApplyKeeps | internal/control/manager.go:105-167 | every operation of the manager keeps the invariant of its whole state |
| ControlTrace.OperationsAreTraced | internal/control/manager.go:169-204 | the events an operation appends replay from the kernel it found to the kernel it left, and each records what the kernel answered |
| ControlFrame.PerformFramed | internal/control/manager_ops.go:79-117 | an action on one binding reaches no other process's nice value and no other record |
| ControlDryRun.DryRunPredicts | internal/control/manager_ops.go:13-284 | after any run a dry run of stop, freeze or signal, and, if the addressed target lists each process once, of continue, restore or restore-nice, changes nothing, and its results are the real call's, pid for pid, with every refusal the same |
| ControlLimits.PreviewMisleadsOnTwice | internal/control/manager_ops.go:79-117 | a run in which a target lists a process twice and a restore is announced for both entries but done for one |
| ControlDryRun.DryNiceSetsIntentOnly | internal/control/manager.go:155-167 | a dry-run renice changes the recorded intent and nothing else |
| ControlRestore.RestoreEffect | internal/control/manager_ops.go:13-36 | after a real restore each process has its captured original exactly when the guards and the kernel let the write through, and its old value otherwise |
| ControlRestore.NiceThenRestore | internal/control/manager_ops.go:79-117 | renice then unforced restore gives the old value back if and only if the renice did nothing, or was in range and the old value is still permitted |
| ControlLimits.ClampedNiceStays | internal/control/manager_ops.go:79-117 | a process asked for nice 25 is put at 19, where an unforced restore leaves it and a forced one does not |
| ControlRestore.EachAlone | internal/control/manager_ops.go:13-36 | over bindings that are apart, each is acted on as if it were alone |
| ControlFreeze.FreezeEffect | internal/control/manager_ops.go:223-284 | after a real freeze or thaw a cgroup is as asked exactly when an allowed process of the target is in it, the guard or force permits it and the kernel accepts; each cgroup is written once |
| ControlRecords.OriginalFollowsProcess | internal/control/manager.go:126-152 | as long as a target lists a process, through rebinds, reloads, reconciles, renices and restores, it keeps the nice record it was first given |
| ControlRecords.RestoreGivesFirstReading | internal/control/manager_ops.go:13-117 | after any run of renices, rebinds, reloads and reconciles during which a target lists a process, a restore that goes through leaves the process at the nice value read when its record was captured |
| ControlRecords.SetPoliciesFollows | internal/control/reconcile.go:16-38 | a policy reload keeps the record of every process that a policy of the same name still lists |
| ControlRecords.BoundFollows | internal/control/manager.go:126-152 | rebinding keeps the record of every process still listed |
| ControlReconcile.SecondReconcileExactly | internal/control/reconcile.go:53-116 | from any reachable state, a second reconcile with nothing in between leaves the kernel as the first left it, if and only if for each process that some policy would reapply to, the last such policy asks for what the last to write in the first pass asked for |
| ControlReconcile.SecondReconcileChangesNothing | internal/control/reconcile.go:53-116 | so it does when policies that match one process agree on its nice value, in every mix of drift modes and refusals |
| ControlReconcile.SameModeStands | internal/control/reconcile.go:84-116 | so it does when all policies reapply, or none does, however they disagree |
| ControlReconcile.PassSettles | internal/control/reconcile.go:53-81 | a pass leaves each process at what the last policy that could write to it asked for, and every policy with a record of each process it could reach |
| ControlLimits.SecondReconcileCanWrite | internal/control/reconcile.go:53-116 | a run in which two policies disagree about a process and the second reconcile changes its nice value again |
| ControlReconcile.DriftModes | internal/control/reconcile.go:84-116 | report, adopt and ignore never write; an accepted reapply leaves process and record at the desired value |
| ControlReconcile.ReconcileWorld | internal/control/reconcile.go:71-116 | reconciling one binding writes the desired value once exactly when the process can be reached, the kernel permits it, and the mode is reapply or there is no record yet; nothing else happens to the kernel |
| Operations.FindFrom | internal/control/manager.go:95-103 | the first target whose id or name matches |
| Manager.Manager.Find | internal/control/manager.go:95-103 | finds the first target with that id or name |
| Manager.Manager.Manage | internal/control/manager.go:105-124 | creates or reuses a target and binds the instances |
| Manager.Manager.BindInstances | internal/control/manager.go:126-152 | new bindings take the records of the old binding with the same key, and the generation advances |
| Manager.Manager.SetNice | internal/control/manager.go:153-167 | records the intent, then acts on every binding in order |
| Manager.Manager.ApplyNiceBinding | internal/control/manager.go:169-204 | guard, revalidation, capture before the first write, write, observation, with the result for each outcome |
| Manager.Manager.ObserveNice | internal/control/manager.go:206-222 | the record's observed value and status after a reading |
| Manager.Manager.Revalidate | internal/control/manager.go:224-231 | true exactly when the pid is still held by the bound process |
| Manager.Manager.LoadOldBoot | internal/control/manager.go:78-92 | state of another boot is adopted without its bindings |
| Manager.Manager.Restore | internal/control/manager_ops.go:10-36 | thaws first, then restores nice and stop of each binding, then clears the intents |
| Manager.Manager.RestoreNice | internal/control/manager_ops.go:38-54 | restores nice of each binding and clears that intent |
| Manager.Manager.RestoreNiceBinding | internal/control/manager_ops.go:79-117 | drift and force decide whether the original is written back |
| Manager.Manager.RestoreStopBinding | internal/control/manager_ops.go:56-77 | continues only a process that was stopped through this record |
| Manager.Manager.Unmanage | internal/control/manager_ops.go:119-130 | removes exactly the named target |
| Manager.Manager.Signal | internal/control/manager_ops.go:132-158 | one guarded, revalidated signal per instance, in order |
| Manager.Manager.SetStop | internal/control/manager_ops.go:160-181 | records the intent of a real call, then stops or continues every binding |
| Manager.Manager.ApplyStopBinding | internal/control/manager_ops.go:183-221 | the guarded signal and the record it creates or updates |
| Manager.Manager.SetFreeze | internal/control/manager_ops.go:223-241 | records the intent of a real call, then handles each distinct cgroup |
| Manager.Manager.FreezeBinding | internal/control/manager_ops.go:243-284 | guard, cgroup lookup, once per cgroup, blast-radius check, write |
| Manager.Manager.Rebind | internal/control/manager_ops.go:307-320 | rebinds a follow target and leaves a snapshot target alone |
| Manager.Manager.SetPolicies | internal/control/reconcile.go:14-38 | replaces the policy targets, keeping bindings of policies with the same name |
| Manager.Manager.Reconcile | internal/control/reconcile.go:49-69 | rebinds and reconciles each policy target whose selector resolves |
| Manager.Manager.ReconcileNice | internal/control/reconcile.go:71-81 | applies nice to a new binding and handles drift on a captured one |
| Manager.Manager.ReconcileDriftBinding | internal/control/reconcile.go:84-116 | the record and kernel after each drift mode |
| Folds.FoldPermutation | internal/query/aggregate.go:56-76 | folding with an associative and commutative operation gives the same value for every permutation |
| QueryModel.RegisteredLabelByKey | internal/query/dimension.go:60-139 | for every registered dimension, processes under one key show one label |
| QuerySort.LessTotal | internal/query/sort.go:19-120 | whatever the sort keys, rows that differ in kind, label or key are ordered, one way only |
| QuerySort.LessTransitive | internal/query/sort.go:19-120 | the row order is transitive across keys, availability, direction and tie-break |
| QuerySort.SortedInOrder | internal/query/sort.go:19-29 | sorted siblings are in that order |
| QuerySort.SortedStable | internal/query/sort.go:19-29 | tied rows keep the order they came in |
| QuerySort.StrictUnique | internal/query/sort.go:10-29 | distinct siblings have exactly one sorted order |
| QueryBuild.ResolveGroupByExact | internal/query/engine.go:72-98 | group-by ids are accepted exactly when known and all different, or "none" alone, and resolve in order |
| QueryTotals.Partition | internal/query/helpers.go:13-29 | the buckets together are the processes, each as often |
| QueryTotals.KeysSeen | internal/query/helpers.go:13-29 | a key has a bucket exactly when some process has it |
| QueryTotals.BucketsMeasure | internal/query/aggregate.go:8-44 | whatever is measured of processes, the buckets' measures combine to the whole |
| QueryTotals.AggregateIsCombination | internal/query/aggregate.go:29-76 | a group's summed, minimal or maximal metric is the combination of the available values, and is unavailable exactly when all of them are |
| QueryBalance.LeavesAreSelected | internal/query/engine.go:112-164 | however the processes are grouped, the leaves are those of the ungrouped list, each as often |
| QueryBalance.GroupsAddUp | internal/query/engine.go:167-193 | at every group the child count, process, thread and leaf counts and every summed, minimal or maximal metric equal the combination over its children |
| QueryBalance.UnavailableOnlyWhenAllAre | internal/query/aggregate.go:29-44 | at a group that adds up, such a metric is unavailable exactly when it is for every child |
| QueryBalance.CountTotals | internal/query/engine.go:167-176 | the rows of one level account for all processes and threads given to it |
| QueryBalance.MetricTotals | internal/query/aggregate.go:16-44 | the rows of one level combine to the aggregate of the processes given to it |
| QueryOrder.BuildOrderFree | internal/query/engine.go:35-70 | every permutation of the processes gives the same tree, sibling order and top-N cut, with distinct leaf keys and, for mixed metrics, groups whose processes agree |
| QueryOrder.GroupOrderFree | internal/query/engine.go:112-127 | the same for the grouped, filtered and sorted tree below any level |
| QueryMixed.OrderFreeExactly | internal/query/engine.go:35-70 | with nothing filtered out or cut off, the result is the same for every permutation if and only if the processes of each top group agree on the mixed metrics asked for |
| QueryMixed.MixedOrderFree | internal/query/aggregate.go:78-88 | a mixed value is the same for every order exactly when all its values are equal |
| QueryOrder.HavingElements | internal/query/having.go:3-19 | a row stays exactly when it passes or something under it stays |
| QueryResult.HavingLeaves | internal/query/having.go:3-19 | the leaves left are the leaves that pass, in their order |
| QueryResult.ResultLeaves | internal/query/engine.go:35-70 | without a limit the leaves of a result are those of the selected processes that pass, each once |
| QueryResult.SortedByFirstKey | internal/query/sort.go:31-74 | the first sort key decides, in the direction asked, with unavailable values last either way |
| QueryResult.TopRows | internal/query/engine.go:54-58 | a limit keeps the first rows of the whole order; no dropped row comes before a kept one |
| QueryEngine.Engine.BuildResult | internal/query/engine.go:35-70 | the pipeline with its loops builds that result |
| QueryEngine.Engine.BuildLevel | internal/query/engine.go:111-127 | the recursion over dimensions builds the grouped tree |
| QueryEngine.Engine.FillGroup | internal/query/engine.go:167-177 | the row's counts and metrics, filled in steps |
| QueryEngine.Engine.ResolveDimensions | internal/query/engine.go:72-98 | the loop with its set of seen ids resolves or refuses alike |
| QueryEngine.BucketBy | internal/query/helpers.go:13-29 | first-seen keys, and under each key its processes in order |
| QueryEngine.HavingStage | internal/query/having.go:3-19 | the recursive filter |
| QueryEngine.SortStage | internal/query/sort.go:10-29 | siblings sorted at every level |
| QueryEngine.ReduceValues | internal/query/aggregate.go:56-62 | the accumulator loop is the left fold |
| QueryEngine.MixedOf | internal/query/aggregate.go:78-88 | marked mixed exactly when the values differ |
| QueryEngine.ProjectMetrics | internal/query/helpers.go:59-71 | exactly the requested metrics, unavailable where the source has none |
| QueryEngine.CountRowLeaves | internal/query/engine.go:185-193 | the recursive count |
| QueryEngine.ThreadLeaves | internal/query/engine.go:152-164 | one row for each enumerated thread, in order |
| CsvRows.FlatRebuild | internal/render/csv/csv.go:76-83 | flattening any forest and rebuilding it from the depths gives the forest back |
| CsvRows.FlatExactly | internal/render/csv/csv.go:1-5 | a list of tagged rows is the flattening of a forest exactly when it never skips a level |
| CsvRows.FlatInjective | internal/render/csv/csv.go:1-5 | different forests never flatten to the same rows |
| CsvRows.Flatten | internal/render/csv/csv.go:76-83 | the recursive loop writes rows in preorder with their depth |
| ExprParsing.ParserIsGrammar | internal/expr/parser.go:22-207 | a token list parses to a tree if and only if some derivation of the grammar yields the list and means the tree |
| ExprParsing.PrintParse | internal/expr/parser.go:22-207 | any tree printed with the parentheses it needs parses back to itself |
| ExprParsing.ParsePrintParse | internal/expr/parser.go:22-207 | whatever parses, prints and parses again to the same tree |
| ExprParsing.ConjComplete | internal/expr/parser.go:40-54 | a conjunction is read to its end and associates to the left |
| ExprParsing.ElemsSound | internal/expr/parser.go:169-189 | every parsed list is elements separated by commas, with at most one trailing comma |
| ExprParser.Parser.ParseAll | internal/expr/program.go:22-29 | the whole input is one expression, or an error; the cursor never leaves the list |
| ExprParser.Parser.ParseOr | internal/expr/parser.go:24-38 | the loop over disjunctions |
| ExprParser.Parser.ParseAnd | internal/expr/parser.go:40-54 | the loop over conjunctions |
| ExprParser.Parser.ParseList | internal/expr/parser.go:169-189 | the loop over list elements, with its three ways to end |
| ExprParser.Parser.MaybeComparison | internal/expr/parser.go:92-114 | an optional comparison, and the errors of pattern operators |
| ExprParser.Parser.Advance | internal/expr/parser.go:14-20 | the cursor moves by one and never past the end marker |
| ExprText.QuotedRoundTrip | internal/expr/lexer.go:92-125 | any byte string, escaped and quoted with either quote, lexes back to itself |
| ExprText.TextLexes | internal/expr/lexer.go:38-176 | a token list written out lexes back to itself |
| ExprText.LexPlain | internal/expr/lexer.go:38-50 | every token list ends in the end marker, and each token before it can be written out |
| ExprText.LexTextLex | internal/expr/lexer.go:38-176 | lexing, writing out and lexing again gives the same tokens |
| ExprText.SuffixDecimal | internal/expr/suffix.go:11-75 | a unit suffix turns a decimal number into a decimal number |
| ExprScanner.Lexer.LexAll | internal/expr/lexer.go:38-50 | terminates on every input with a token list or an error |
| ExprScanner.Lexer.Next | internal/expr/lexer.go:52-78 | the next token and the position after it |
| ExprScanner.Lexer.LexString | internal/expr/lexer.go:92-112 | quotes and escapes |
| ExprScanner.Lexer.LexNumber | internal/expr/lexer.go:135-155 | digits, a suffix, and the two number errors |
| ExprScanner.Lexer.LexOp | internal/expr/lexer.go:157-176 | the longest operator first |
| ExprProgram.SourceCompiles | internal/expr/program.go:15-39 | any tree with writable leaves, written out as text, compiles to the same tree and its fields |
| ExprProgram.CompiledTreeRoundTrips | internal/expr/program.go:15-39 | a compiled program's tree can be written out, and compiling that changes nothing |
| ExprProgram.ValidatedIsFramed | internal/expr/program.go:43-55 | a validated program selects the same whatever the fields outside the allowed set hold |
| ExprProgram.EvalFrame | internal/expr/ast.go:19-200 | evaluation reads no field but the collected ones |
| ExprProgram.NotEqualNegatesEqual | internal/expr/ast.go:70-95 | "!=" negates "==" exactly when neither operand is missing |
| ExprProgram.NegatedForms | internal/expr/ast.go:70-145 | "not in" always negates "in"; "!~" negates "~=" exactly when neither operand is missing |
| ExprProgram.CompileText | internal/expr/program.go:15-39 | lexer, parser and field walk compile as specified, errors included |
| ExprProgram.FieldSet.Collect | internal/expr/program.go:57-81 | the walk adds exactly the fields of the tree |
| ByteOrder.StringLessTotal | internal/expr/ast.go:148-160 | byte order of strings is strict and total |
| StoreSafety.CrashSafeExactly | internal/state/store.go:58-101 | in any interleaving of Saves, failures included, a reader and a crash find state.json with its first contents or all bytes of one Save at every moment, if and only if each successful rename found a synced file under its temporary name |
| StoreSafety.StepInv | internal/state/store.go:60-90 | each step of a Save, succeeding or failing, keeps the invariant of disk and Saves whatever names are reused, provided a rename finds a synced file |
| StoreSafety.UnsyncedBreaks | internal/state/store.go:82-88 | after a rename of an unsynced file a crash can leave bytes that no Save was given |
| StoreSafety.SyncIsDurable | internal/state/store.go:89-101 | in such runs, after a successful directory sync no crash takes state.json back to a moment before it |
| StoreSafety.NeverQuarantined | internal/state/store.go:40-56 | in such runs, if the first contents and every saved state decode, so does whatever a crash leaves |
| StoreNames.CrashSafe | internal/state/store.go:58-101 | runs in which no Save takes a name that an unfinished one still holds are safe at every moment |
| StoreNames.StepOwned | internal/state/store.go:60-90 | with fresh names each step keeps every Save's name leading to its own file, filled as far as it was written |
| StoreNames.RenameShows | internal/state/store.go:86-88 | the rename then puts exactly the Save's bytes in place |
| StoreReuse.ReuseBreaksSafety | internal/state/store.go:65-69 | a run in which a temporary name is reused twice leaves half of a Save in state.json |
| StoreReuse.ReuseCanBeHarmless | internal/state/store.go:65-69 | a run in which a name is reused once stays whole, and the Save that lost the name can only fail |
| StateStore.Store.Save | internal/state/store.go:58-90 | the calls are steps of the model; success means the new bytes are in place after a sync; failure leaves the old contents or the new; a temporary entry is left only when the Save failed and its removal failed too |
| StateStore.Store.FillTemp | internal/state/store.go:70-85 | mode, partial writes, sync and close, each of which may fail |
| StateStore.Store.Load | internal/state/store.go:40-56 | loading changes nothing, except that an undecodable file is moved aside |
| Presets.AllRootedIsAcyclic | internal/config/validate.go:121-156 | every chain of parents ends exactly when no parent is missing and there is no cycle |
| Presets.Checker.DetectCycles | internal/config/validate.go:121-156 | in any visiting order the check accepts exactly when every chain ends |
| Presets.Checker.Visit | internal/config/validate.go:128-147 | success finishes the preset and its ancestors; an error means the chain does not end |
| Sampling.RatePresentExactly | internal/collect/sampler.go:30-80 | in any run a rate is there exactly when the same instance was in the last successful list, time has passed, both readings are available and the counter did not fall, and it is the growth per second |
| Sampling.ThreadRatePresentExactly | internal/collect/sampler.go:100-163 | the same for the CPU rates of threads, where the reading is always available |
| Sampling.ThreadGaugesNeedNoSample | internal/collect/sampler.go:130-155 | the absolute values of a thread depend on no earlier sample: CPU time is there exactly when the clock rate is known, age when the boot time is too, and no other metric is |
| Sampling.RatesTelescope | internal/collect/sampler.go:180-200 | over any stretch of rates that are all there, failed lists included, rate times elapsed time adds up to the counter's growth, scaled by the unit |
| Sampling.StateIsLastListed | internal/collect/sampler.go:33-80 | what the sampler compares with is the last successful list |
| Sampler.Sampler.Sample | internal/collect/sampler.go:30-80 | a failed list changes nothing; a successful one replaces the state and returns the snapshot |
| Sampler.Sampler.BuildThreads | internal/collect/sampler.go:100-121 | thread rows, and the next generation of thread counters |
| HostCache.CachedIsUncached | internal/procfs/read.go:194-222 | with constant hostnames every List returns what uncached reads would |
| HostCache.ReadOnce | internal/procfs/read.go:200-222 | a List reads the environment of an instance once if the List before did not see it, and not at all if it did |
| HostCache.GenerationsHoldLastTwo | internal/procfs/source.go:111-118 | the two generations hold exactly the instances of the last two Lists |
| HostCache.Source.List | internal/procfs/source.go:135-160 | rotates only when hostnames are read, then looks up each instance |
| HostCache.Source.ReadHostnameFor | internal/procfs/read.go:202-222 | hit, promotion or read |
| TuiView.VisibleExactly | internal/tui/model.go:354-380 | the visible rows are the nodes of the tree, in preorder, that have no folded ancestor |
| TuiFold.NearestIsParent | internal/tui/update.go:383-395 | the nearest less deep row above a row is its parent in the tree, and there is none exactly above top rows |
| TuiFold.FoldPrefix | internal/tui/model.go:354-380 | two fold states that agree on the first rows show the same first rows |
| TuiFold.ToggleKeepsPlaceExactly | internal/tui/update.go:321-339 | folding or unfolding the group under the cursor keeps it under the cursor, below the same rows, if and only if no group above has its path |
| TuiFold.FoldKeepsCursor | internal/tui/update.go:367-374 | setting its fold either way, with such a path, keeps cursor, window and all rows above |
| TuiFold.ToggleTwiceExactly | internal/tui/update.go:321-339 | toggling twice restores the view if and only if the first toggle leaves the cursor where it was, on a group of the same path, which can be told from the view before |
| TuiFold.ToggleTwice | internal/tui/update.go:321-339 | so it does when no group above has the path |
| TuiFold.AlwaysInWindow | internal/tui/update.go:397-419 | every rebuild and every move leaves the cursor on a row inside the window |
| TuiPaths.PlainToggleTwice | internal/tui/model.go:357-380 | with distinct sibling keys without separators, toggling keeps one's place and toggling twice restores the view |
| TuiPaths.PlainPathsDiffer | internal/tui/model.go:357-380 | then all visible rows have different paths |
| TuiSeparator.SeparatorBreaksFold | internal/tui/model.go:364-378 | on a result of the query engine for two processes, grouped by command and user, a separator in a command makes a fold lose the place and an unfold move the cursor |
| TuiSeparator.AmbiguousIsBuilt | internal/query/engine.go:35-70 | that result is what the engine builds |
| TuiLine.TypingUndone | internal/tui/update.go:169-197 | a typed character can be taken back from either side |
| TuiLine.TypingInserts | internal/tui/update.go:169-177 | typing a text puts it at the cursor |
| TuiLine.BrowseBack | internal/tui/update.go:197-211 | going back n times shows the n-th newest filter |
| TuiLine.WordLeftIsWordStart | internal/tui/update.go:262-271 | a word jump ends at the start of the word before |
| TuiFilter.AppliedFilterReadsColumns | internal/tui/update.go:213-239 | an applied filter compiles and decides by displayed columns alone |
| TuiFilter.BareWordPattern | internal/tui/update.go:247-260 | a bare word compiles to a match of the target against the word itself as a pattern |
| TuiFilter.BareWordLiteralExactly | internal/tui/update.go:247-260 | the search is for the word taken literally exactly when the word has no metacharacter |
| TuiFilter.DotStaysLive | internal/tui/update.go:247-260 | a word with a dot in it compiles to a pattern in which the dot matches anything |
| TuiSafety.DryRunBeforeReal | internal/tui/control.go:149-183 | in every run each real control call immediately follows the dry run of the same pids, kind, target and nice |
| TuiSafety.OnlyConfirmationActs | internal/tui/control.go:164-177 | a real call happens only on "y" in an open gate, for the action the gate was opened for |
| TuiSafety.OneModeAlways | internal/tui/update.go:59-102 | at most one mode is open, and the forecast implies the confirmation gate |
| TuiSafety.StepKeeps | internal/tui/update.go:59-102 | every key, resize and refresh keeps modes, gate, calls and positions in order |
| TuiSafety.PidsUnderRow | internal/tui/control.go:99-124 | an action is asked for exactly the processes at or under the selected row, each once |
| TuiModel.Model.Update | internal/tui/update.go:59-102 | the dispatch over the object's fields is the state machine's |
| TuiModel.Model.StartControl | internal/tui/control.go:62-84 | a nice value is asked for first, anything else goes to the gate |
| TuiModel.Model.BeginConfirm | internal/tui/control.go:149-162 | dry run, then the gate if it succeeded |
| TuiModel.Model.NiceKey | internal/tui/control.go:126-147 | typing, cancelling and submitting a nice value |
| TuiModel.Model.ConfirmKey | internal/tui/control.go:164-183 | confirm, view or cancel |
| TuiModel.WalkPids | internal/tui/control.go:99-124 | the distinct owners in the order they are met |
| TuiModel.Tree.Walk | internal/tui/model.go:354-380 | the recursive walk appends the visible rows |
| TuiModel.Tree.RebuildRows | internal/tui/model.go:226-236 | rows, group flag, cursor and window after a change |
| TuiModel.Tree.ClampScroll | internal/tui/update.go:408-419 | the window follows the cursor |
| TuiModel.Tree.MoveToParent | internal/tui/update.go:383-395 | the loop finds the nearest less deep row above |
| TuiModel.Tree.ToggleCollapse | internal/tui/update.go:321-339 | folds or unfolds the group under the cursor |
| TuiModel.Tree.FoldAll | internal/tui/model.go:336-352 | sets the default and drops the overrides |
| TuiModel.FilterLine.EditNav | internal/tui/update.go:142-167 | cursor movement and history |
| TuiModel.FilterLine.WordLeft | internal/tui/update.go:262-271 | the two loops of a word jump |
| TuiModel.FilterLine.HistoryMove | internal/tui/update.go:197-211 | browsing, with its two ends |
| TuiModel.Model.ApplyFilter | internal/tui/update.go:213-245 | clears, rejects or applies the filter and remembers it |
| TuiModel.Model.EditKey | internal/tui/update.go:116-140 | what each key does to the line, the filter and the editor |

## Left out

- Timestamps, the audit log, message texts and the per-status counts of results; a result keeps its pid, status and the reason for it.
- Manager.Manager.LoadOldBoot: leaves out loading state saved under the same boot, since a record in it may have been captured under another process's safeguards.
- Changes of the environment in the middle of one manager operation, and concurrent calls of the manager, which has no lock: operations are atomic steps here.
- Confirmation by count (`CheckCount`) and `InstancesOf`, which follow from their bodies.
- ControlRecords.OriginalFollowsProcess: assumes each list of instances names a process once and each list of policies a name once; with repeated policy names two targets would share one list of bindings, which values do not capture.
- ControlDryRun.DryRunPredicts: for continuing and restoring, assumes that the addressed target lists each process, and each pid, once, as every caller in the repository does; otherwise acting on the first entry can change what happens to the second (`ControlLimits.PreviewMisleadsOnTwice`).
- ControlReconcile.SecondReconcileExactly: assumes that the resolver lists each process once for each selector.
- StoreSafety.SyncIsDurable: speaks of runs whose renames are safe; without that the code promises nothing about state.json (`StoreSafety.UnsyncedBreaks`).
- StoreNames.RenameShows: with reused names a rename can put another Save's whole file in place, which the general results allow.
- QueryMixed.OrderFreeExactly: a filter or a limit can hide the group that differs, so for them agreement is enough but not needed (`QueryOrder.BuildOrderFree`).
- ExprScanner.Lexer.LexNumber: numbers are exact, so one too large for a float is a number here and an error in the program.
- ExprProgram.CompileText: the field list is a set; its sorted order is not modelled.
- Kernel.Controller.FreezeCgroup: cleaning the path and the file errors of the write are one answer of the kernel, accepted or refused.
- Floating point rounding, infinities and NaN; the regular-expression engine; token positions and error texts of expressions.
- The display name of a process, the namespace-set key, select and having environments: given fields and predicates of processes and row heads.
- Rows of the query engine are values: the methods fill and sort copies, so sharing of row pointers is not captured; the library's stable sort is a function that the methods call.
- The CSV cells and header; only rows, kinds of rows and depths.
- Permissions of the state directory, the JSON encoding, and a Load that runs while a Save does.
- Gauges of processes are given values; readings of boot time and wall clock are parameters, and ages beyond the range of a 64-bit count of nanoseconds are not cut.
- Reading and parsing the process file system, and splitting an environment block.
- TuiModel.Model.Update: leaves out the keys for columns, sorting, units, interval, group and leaf choice, dropping a managed target and scrolling inside overlays, and help and detail contents, colours and the picker's own list; autocomplete suggestions are given. Its one struct is split into a tree, a filter line and the rest. Resizing alone does not move the window, so the window holds after the next move or rebuild.
- Configuration checks other than preset inheritance; the daemon, command line, renderers other than CSV.
