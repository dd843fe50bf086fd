# A verified model of dbgold's migration and upgrade logic

dbgold moves schemas and data between databases and upgrades itself in place. Two questions decide whether that is
safe: what may be destroyed, and what was really done. This project models the code that answers them and proves what
it keeps.

- **The portable upgrade** (`Upgrade`, `UpgradeInvariant`, `UpgradeSafety`, `UpgradeCommit`). An updater, any number of
  probe processes and the ordinary service share one installation directory. Every file operation that is not atomic is
  split into steps, any process may die between two steps, and a restore may itself be interrupted any number of times.
  The state is a map from entry names to their contents, the marker, the cold snapshots, the snapshot locks and the
  processes; an upgrade is any sequence of actions. It is proved both what no run can do and that an undisturbed upgrade,
  a failed probe and an interrupted upgrade all have a run to their proper end.
- **What may be dropped** (`NativeScope`, `DropClosure`, `PgPreflight`). Each rule "a retained object protects its
  parents" is a loop over in-place state. Every loop is proved to stop at a least or greatest fixpoint, and from the
  fixpoint follows that no remaining drop is referred to by something that stays. Before the fixpoint, every error
  is pinned to the object that answers for it, or stops the whole run.
- **Order and execution** (`TableOrder`, `PgPreflight`, `NativePhase`, `ForeignKeyRun`). Parents come before children
  and exactly the tables that reach a cycle are left out; a unit never runs behind a failed prerequisite; an old
  foreign key that was dropped is rebuilt, restored or reported at every exit of a run.
- **The execution journal** (`Journal`, `JournalOutcome`, `RepairIndex`). A call is a function of the events a writer
  emits, and its closing record is told from those events alone; the recorder with its two sinks, both clients and
  interference by other workers is a class whose every issued statement is durably announced first, and which runs no
  native statement again that was ever recorded as ended.
- **Exact arithmetic and text** (`IndexPrefix`, `IndexTypes`, `RowFit`, `SnapshotEncoding`, `StringLiterals`, and the
  view modules `ViewLexer`, `ViewRunes`, `ViewPairs`, `ViewClauses`, `ViewKeep`, `ViewPreserved`, `ViewNames`,
  `ViewRewriting`, `ViewSchemas`, `ViewParts`, `ViewMeaning`, `ViewMiddle`, `ViewNormalize`, `ViewRelex`, `ViewJoins`,
  `ViewReread`, `ViewExample`, `ViewAdjacent`). Prefix lengths are shared out within a byte limit, the fewest columns are
  widened, the bytes behind a checksum determine the tree, escapes are rewritten without changing a value, view text is
  lexed and rewritten, what becomes of a name is told from the text around it, and it is settled exactly when the
  rewritten text reads as the tokens that were meant.

Drivers, writers and sinks are oracles: a call into one may return anything, written as a nondeterministic choice.
Proofs about such code hold for every answer. `Wrappers` and `Encoding` hold the option and result types and the
numerals and separated fields used by the two encodings.

## Where the code does not do what its design promises

Each of these is a lemma with a concrete input, next to the condition under which the promise holds.

- Two planned objects that share a collision key: the drop is checked against the first of them
  (datamigrate/dameng_native_scope.go:164-171) and the retained graph against the last (lines 188-190), so a drop can
  remove an object that a retained view needs. A table and its materialized view log are such a pair: the log carries
  its base table's name (datamigrate/damengnative/catalog_mview.go:596) in the same namespace
  (datamigrate/dameng_native.go:461-477). `NativeScope.SharedNameDropsRetainedParent`; the exact condition is
  `NativeScope.DropSafeExactly`.
- A name with two stripped parts: in `a.b.f()` with `a` and `b` both to be stripped, the second visit writes `b` back
  although its dot is gone (datamigrate/oscar_view.go:361-406 with 236-249), so the text becomes `"B"f()`.
  `ViewExample.SecondSchemaReturns`; the exact condition is `ViewSchemas.DotsGoWithSchemasExactly`.
- The rewritten view can read as other tokens. In `a"b"`, a column with its alias directly behind it, both names become
  quoted and the two quotes between them read as one quote inside a single name; in `b"s".f()` with `s` stripped the
  reserved word `b` becomes one word with `f` (datamigrate/oscar_view.go:392-412). `ViewAdjacent.AdjacentNamesJoin` and
  `ViewAdjacent.WordsFuse`; the exact condition is `ViewReread.NormalizedRelexes`: no two neighbours join, where
  `ViewJoins.JoinsExactly` says which do.
- Apostrophes inside quoted names are read as literals (datamigrate/pgmysql_target.go:449-455), so a name can be
  rewritten. `StringLiterals.ApostropheInNameChangesIt`; the exact condition is `StringLiterals.KeptExactly`, read off
  the text: the apostrophes pair up, and the escapes that stand between them are the escapes that stand in literals.

## Model

| member | source | states |
|---|---|---|
| UpgradeInvariant.StepKeepsInv | portable_upgrade.go:61-157 | every step of updater, probes, service and outside world keeps the invariant that ties marker, snapshot, locks, files and probes together |
| UpgradeInvariant.RunKeepsInv | portable_upgrade.go:61-157 | the same over every run |
| UpgradeSafety.ProgramAllOldOrAllNew | portable_upgrade.go:131-157 | after any run with deaths anywhere, if no marker is present the program entries are as a whole the original ones or one complete staged package |
| UpgradeSafety.SealedSnapshotUnmodified | portable_upgrade.go:126-153 | while a marker names a snapshot no step of any process changes that snapshot, unless it is changed from outside |
| UpgradeSafety.NothingDeletedUnverified | portable_upgrade.go:407-446 | a recovery step changes a file only when the snapshot still has the recorded checksum and the marker is still the one being recovered |
| UpgradeSafety.CompletedRestoreReturnsOriginal | portable_upgrade.go:407-453 | after any number of deaths and interrupted restores one completed restore returns program, config, data, uploads and logs to the contents sealed when the marker was written, and removes the marker |
| UpgradeSafety.ProbeWritesUnderOwnMarker | portable_upgrade.go:505-548 | a probe changes files only while it holds its snapshot's lock, the marker is the one it was started for, no restore holds the snapshot and no service runs |
| UpgradeSafety.NoProbeWriteAfterRestore | portable_upgrade.go:407-414 | once a marker was retired by a restore or a commit no probe started under it, orphaned or not, ever writes again |
| UpgradeSafety.RecoveryAlwaysPossible | portable_upgrade.go:80-91 | from every reachable state with a marker and an unchanged snapshot some run removes the marker with everything restored |
| UpgradeSafety.RuntimeNeverPartial | portable_upgrade.go:455-483 | with a kept runtime, the runtime found during one marker's life is the one from before, the complete cold copy, or none |
| UpgradeInvariant.RestoreComplete | portable_upgrade.go:427-446 | working through the restore list entry by entry makes every restored entry agree with the snapshot |
| UpgradeInvariant.ProgramComplete | portable_upgrade.go:135-146 | installing every program entry yields exactly the staged package |
| UpgradeSafety.FinishRestore | portable_upgrade.go:432-452 | from any point inside a restore undisturbed steps reach its end |
| UpgradeCommit.CommitFollowsReadyProbe | portable_upgrade.go:135-157 | over every run: a step that changes the current program, or removes a marker without a restore, commits the package that is in place, and before it the probe which this upgrade had started exited ready while it ran under this marker |
| UpgradeCommit.ReadyProgramIsWhole | portable_upgrade.go:485-503 | at the moment that probe reports, the whole package is in place and the marker is the upgrade's own |
| UpgradeCommit.ReadyProbeCommits | portable_upgrade.go:145-157 | from the installed package with the snapshot lock free, a ready exit of its probe leads to a state without a marker in which the package is the current program |
| UpgradeCommit.UndisturbedUpgradeSucceeds | portable_upgrade.go:80-157 | from any reachable state at rest some run installs the whole package, keeps every other entry, leaves a cold copy of everything but temporary files (and of a runtime only if a release bundled it) and removes its marker |
| UpgradeCommit.FailedProbeIsTakenBack | portable_upgrade.go:148-153 | after a probe that exited without being ready the same updater, without dying, puts everything back and removes the marker |
| UpgradeCommit.RuntimeComesBack | portable_upgrade.go:455-483 | the last step of a restore puts back the cold copy of a kept runtime exactly if the whole of it is gone, and changes nothing else |
| UpgradeCommit.MarkerNamesWholeSnapshot | portable_upgrade.go:280-297 | a marker is written only for a snapshot with the whole program and its configuration, equal to the files of that moment |
| UpgradeCommit.AnyDamageCanHappen | portable_upgrade.go:135-146 | an entry that is being replaced or restored may be left as anything, and a running server may change its data in any way: the theorems hold against all of that |
| NativeScope.Preflight.Propagate | datamigrate/dameng_native_scope.go:34-54 | the loop ends at the least set above the recorded failures that contains every dependant and child of a failure; recorded stages stay |
| NativeScope.WalkOwners | datamigrate/dameng_native_scope.go:199-226 | the cycle-guarded walk returns true exactly when some ancestor of the owner is healthily replaced |
| NativeScope.Preflight.Protect | datamigrate/dameng_native_scope.go:185-245 | from propagated failures the loop ends at the least set closed under propagation and under protecting what retained target objects depend on |
| NativeScope.Preflight.PreflightStates | datamigrate/dameng_native_scope.go:56-67 | the initial states are the least propagated set above the blocked objects, with their own stages |
| NativeScope.Preflight.Diagnose | datamigrate/dameng_native_scope.go:85-131 | every error is pinned to the object that answers for it, under the stage recorded before; it stands for the whole task exactly if it names no planned object or an inline one without a creator |
| NativeScope.Preflight.FindOwner | datamigrate/dameng_native_scope.go:106-124 | the cycle-guarded walk from an inline object up its creators ends where the specified climb ends |
| NativeScope.ClimbEnds | datamigrate/dameng_native_scope.go:106-124 | the climb follows creators only, and ends at an object with a statement of its own, at one without a creator, or where a cycle of inline objects closes |
| NativeScope.Preflight.MarkObjects | datamigrate/dameng_native_scope.go:144-153 | marks exactly the withheld objects, and lets the run start if there is no error at all or some object is not withheld, unless an error stands for the whole task |
| NativeScope.Preflight.Finalize | datamigrate/dameng_native_scope.go:69-161 | afterwards withheld is the least closed set above the objects that the errors are pinned to, with their stages; a run may start exactly when every error is pinned and something is left to do, and then every error's object is withheld; the drops kept are exactly those whose replacement is not withheld |
| NativeScope.FinalizingAgain | datamigrate/dameng_native_scope.go:69-161 | finalizing again with the former diagnostics and more withholds at least as much and revives no drop |
| NativeScope.Preflight.KeptDrops | datamigrate/dameng_native_scope.go:154-171 | keeps, in order, the drops whose first planned namesake is not withheld |
| NativeScope.LeastUnique | datamigrate/dameng_native_scope.go:185-245 | there is only one least closed set, so the result is determined |
| NativeScope.OrderIrrelevant | datamigrate/dameng_native_scope.go:194-244 | for the same objects the result depends only on which of several objects of one name, ID or table name counts, not on how they are listed otherwise |
| NativeScope.DistinctOrderIrrelevant | datamigrate/dameng_native_scope.go:194-244 | in particular, without equal names the order does not matter at all |
| NativeScope.DropHasNoRetainedDependant | datamigrate/dameng_native_scope.go:183-245 | every target object that depends on a dropped name is itself healthily replaced or disappears with a healthily replaced owner |
| NativeScope.DistinctDropsAreSafe | datamigrate/dameng_native_scope.go:154-171 | with distinct collision keys every remaining drop is safe in that sense |
| NativeScope.SharedNameDropsRetainedParent | datamigrate/dameng_native_scope.go:164-171 | a healthy table, its withheld log of the same collision key and a view that depends on the table: the least closed set keeps the drop of the table, and the view stays behind |
| NativeScope.DropSafeExactly | datamigrate/dameng_native_scope.go:164-190 | an allowed drop is safe against every target graph if and only if the last planned object of its name is healthy |
| NativePhase.PlanPhase | datamigrate/dameng_native.go:777-800 | lists the units of a phase of all objects that are not managed, in plan order |
| NativePhase.Round | datamigrate/dameng_native.go:800-826 | one round attempts, once each and in order, exactly the pending units whose objects are not withheld at their turn, withheld being the least propagated set above the failures so far; it returns those that failed, stops early only if the task was cancelled or ended, and makes progress exactly if one succeeded |
| NativePhase.ExecutePhase | datamigrate/dameng_native.go:777-836 | ends on every failure pattern within a triangular number of attempts; on success the log is a sequence of such rounds, each of them on what the one before left and after a success in it, until nothing is left or a round succeeds with nothing; withheld is then the least propagated set above the earlier failures and the units that the last round left, and every unit of another object was executed successfully |
| NativePhase.NotWithheldIsDone | datamigrate/dameng_native.go:800-836 | in any such sequence of rounds every planned unit whose object is not withheld at the end was executed successfully |
| NativePhase.NothingFails | datamigrate/dameng_native.go:800-836 | with nothing withheld before and a writer that never fails one round executes the whole plan and withholds nothing |
| NativePhase.NeverRunsUnprepared | datamigrate/dameng_native.go:777-836 | no unit is attempted for an object that reaches a failed one along dependencies and parents, however far |
| NativePhase.FailureReachesChain | datamigrate/dameng_native_scope.go:34-54 | in a propagated set a failure at the end of a chain of needs puts its beginning into the set |
| Journal.StepsInOrder | datamigrate/repair_manifest.go:680-766 | after any events the unit of rank k among equal texts was observed exactly if more than k running events carried its text |
| Journal.KthStartMarksKthUnit | datamigrate/repair_manifest.go:706-751 | whatever happened before, the k-th running event of a text marks the k-th unit with that text, planned units before added ones; only the creating statement of a sequence may instead take the place of the first outdated unit, exactly when all units of its own text were started and an outdated one is left |
| Journal.OutcomesRetireInOrder | datamigrate/repair_manifest.go:706-719 | an outcome retires a running unit of its text: a failure the one started last, any other the one started first |
| Journal.ReuseMarksFirst | datamigrate/repair_manifest.go:706-719 | an object found in place belongs to the first unit of its text that is pending or running |
| Journal.FinalRecord | datamigrate/repair_manifest.go:767-826 | at exit no unit is running, a succeeded object has no pending or unknown unit, and a failed one is reported; `JournalOutcome` says which status each unit has |
| JournalOutcome.FinalUnitExactly | datamigrate/repair_manifest.go:767-817 | after any events the closing record has for every unit what the last event that marked it reported: an outcome is kept with its text and error, a statement left running is unknown, and one of which nothing was reported succeeded if the call did, is unknown if the call failed with no statement seen to start and an error that does not rule it out, and is pending otherwise; a single comment displaced by other statements is unknown |
| JournalOutcome.FinalObjectExactly | datamigrate/repair_manifest.go:776-822 | the object is unknown if one of its units is, else failed if the call failed or a single comment was reported as failed or rolled back, else succeeded; the error returned is the call's, and there is one exactly then or when a single comment is unknown |
| JournalOutcome.OutcomesAreHonest | datamigrate/repair_manifest.go:804-817 | reported outcomes stay, a statement left running makes the object unknown, and a unit ends as succeeded only if the last event that marked it said so, or none said anything and the call returned no error |
| Journal.CompactCommentIsEquivalent | datamigrate/repair_manifest.go:660-705 | for one running event and one outcome the compact comment path ends with the ordinary path's record and error, in two saves instead of four |
| Journal.Recorder.Flush | datamigrate/repair_manifest.go:61-100 | a save makes the object's record durable, or is remembered as failed for good and changes nothing durable |
| Journal.Recorder.BeginCall | datamigrate/repair_manifest.go:614-678 | after a failed save nothing is touched; otherwise the plan is durable before the writer is called, or, if it cannot be saved, recorded as failed with every unit pending |
| Journal.Recorder.FindUnit | datamigrate/repair_manifest.go:706-719 | the scan finds the first eligible unit, or for a failure the last one |
| Journal.Recorder.FindOutdated | datamigrate/repair_manifest.go:720-727 | the scan finds the first pending unit that would create the sequence and saw no running event |
| Journal.Recorder.Observe | datamigrate/repair_manifest.go:680-766 | an event advances the record as specified; an accepted running event leaves a durable record, and a running event after a failed save is refused |
| Journal.Recorder.FinishCall | datamigrate/repair_manifest.go:767-826 | success is returned only with the final record durable and no save failed |
| Journal.Recorder.Capture | datamigrate/repair_manifest.go:603-826 | with any events and any interference every statement issued was durably recorded as running first; after a failed save none is issued; success leaves the specified record durable |
| Journal.Recorder.FindNative | datamigrate/dameng_native_repair.go:108-121 | finds the first unit of a text that has not succeeded |
| Journal.Recorder.ObserveNative | datamigrate/dameng_native_repair.go:143-163 | an event changes the status and error of its frozen unit only, makes the object failed or unknown with it and running otherwise, and is accepted only when saved |
| Journal.Recorder.ExecuteNative | datamigrate/dameng_native_repair.go:93-165 | everything issued belongs to the first unit of the text that has not succeeded, is durably announced first, and was never recorded as succeeded or unknown at any moment before, by this or any other call |
| Journal.Recorder.ReportOutcome | datamigrate/dameng_native_repair.go:143-163 | a writer's reports about its announced unit end with the first one accepted, and undo nothing that was recorded as ended |
| Journal.Recorder.Task | datamigrate/repair_manifest.go:603-826 | over any number of calls of both kinds and any interference every statement is announced first, none starts in a call after a failed save, and no native unit starts after any moment at which it was recorded as succeeded or unknown |
| RepairIndex.Recorder.RebuildObjectIndex | datamigrate/repair_object_index.go:7-16 | afterwards the index answers every ID with its first position |
| RepairIndex.Recorder.ObjectPosition | datamigrate/repair_object_index.go:18-36 | returns the first object with the ID or -1 after any history that kept the invariant, and for any other state exactly unless the index misleads about that ID |
| RepairIndex.Recorder.AppendObject | datamigrate/repair_object_index.go:38-49 | appends one object, returns its position and leaves a current index |
| RepairIndex.Recorder.AppendRaw | datamigrate/repair_object_index.go:5-16 | growing the slice behind the index's back keeps the invariant |
| RepairIndex.Recorder.Update | datamigrate/repair_object_index.go:5-16 | changing an object but not its ID keeps the invariant |
| RepairIndex.StaleIndexMisleads | datamigrate/repair_object_index.go:26-28 | without the rebuild that the comment asks of owners, a replacement at equal length hides an object that is there |
| RepairIndex.SignatureInjective | datamigrate/repair_preparation.go:39-47 | the length-prefixed signature determines the column list |
| RepairIndex.RepairReference | datamigrate/repair_preparation.go:39-47 | the loop builds table and signature of the column list |
| RepairIndex.LinkRepairForeignKeys | datamigrate/repair_preparation.go:51-71 | every foreign key gains exactly the dependency that an ordered scan for the first matching key would give it |
| IndexPrefix.ColumnPartSound | datamigrate/oraclemysql_indexes_plan.go:155-270 | the byte size of a column part is positive where it is adjustable and not negative where it is fixed |
| IndexTypes.FixedHolds | datamigrate/oraclemysql_indexes_plan.go:211-268 | a number, bit, date or time column takes the fewest bytes that hold its values, and the fewest that hold its fraction of a second |
| IndexTypes.DecimalHolds | datamigrate/oraclemysql_indexes_plan.go:231-243 | a decimal column is refused exactly outside 1 to 65 digits and 0 to 30 places, and otherwise takes bytes that hold its digits before and after the point |
| IndexTypes.DigitBytesExactly | datamigrate/oraclemysql_indexes_plan.go:240-242 | nine digits take four bytes and the rest a byte for every two begun |
| IndexTypes.TextUnits | datamigrate/oraclemysql_indexes_plan.go:174-209 | a character takes as many bytes as its character set may need and a binary unit one; a text or blob column has as many units as its length field can count, or its known length, and needs a prefix; other text has its declared length |
| IndexTypes.KnownExactly | datamigrate/oraclemysql_indexes_plan.go:155-270 | which columns the planner refuses and which types it does not know |
| IndexPrefix.CapRound | datamigrate/oraclemysql_indexes_plan.go:97-114 | one round fills every column that fits its share and raises the level of all others |
| IndexPrefix.ShareOut | datamigrate/oraclemysql_indexes_plan.go:115-119 | equal shares leave every open column at its share, rounded down, within the budget |
| IndexPrefix.ResiduePass | datamigrate/oraclemysql_indexes_plan.go:120-131 | one pass hands out single units in column order and stops changing only when none fits |
| IndexPrefix.Allocate | datamigrate/oraclemysql_indexes_plan.go:82-134 | each adjustable column gets between one unit and its full length within the limit, none shortened could take one more unit, equally wide columns differ by at most one unit unless full, and in bytes no column is ahead of a shortened one at least as wide by as much as two of the latter's units and one of its own |
| IndexPrefix.PlanIndex | datamigrate/oraclemysql_indexes_plan.go:29-153 | the whole planner: unchanged, the exact error, or an index shortened to such an allocation, adjusted exactly if it differs |
| IndexPrefix.TooLongIsNecessary | datamigrate/oraclemysql_indexes_plan.go:78-80 | the length error is reported exactly when no admissible prefixes exist |
| IndexPrefix.ShortenedFits | datamigrate/oraclemysql_indexes_plan.go:135-152 | a shortened index is within the limit and lacks no mandatory prefix |
| IndexPrefix.ReplanningIsStable | datamigrate/oraclemysql_indexes_plan.go:147-152 | planning the planner's result again changes nothing |
| ForeignKeyRun.Run.Execute | datamigrate/oraclemysql.go:745-784 | one drop or restore is blocked if it cannot be announced, and else sends SQL once and ends with the last status that was reported, or, with none or only that it runs, succeeded without an error and unknown with one; it succeeds for its caller exactly if there was no error and the result could be saved |
| ForeignKeyRun.Run.RestoreAll | datamigrate/oraclemysql.go:797-816 | restores strictly in reverse, never sends restore SQL for a key with a touched endpoint or twice for one key, and leaves every dropped key with what came of its restore, or blocked because an end was touched or the restore could not be announced |
| ForeignKeyRun.Run.MarkAllUnrestored | datamigrate/oraclemysql.go:786-795 | marks exactly the dropped keys that were not restored, as blocked and with an error |
| ForeignKeyRun.Run.Finalize | datamigrate/oraclemysql.go:818-841 | keys between healthy replacements stay as they are and every other dropped key is restored or reported |
| ForeignKeyRun.Run.Body | datamigrate/oraclemysql.go:533-614 | at every exit each key that the log shows as dropped is accounted for unless the migration was cancelled, recorded drops are what the log shows, and all drops precede the first rebuild |
| ForeignKeyRun.Run.Execution | datamigrate/oraclemysql.go:366-614 | at every exit each key that the log shows as dropped has two healthy ends that were rebuilt, or the outcome of its restore, or is blocked because an end was touched, the restore could not be announced or the task was cancelled; failed and unknown drops and cancellation show as failures |
| ForeignKeyRun.MarkingAccounts | datamigrate/report.go:168-175 | marking forgets no dropped key and makes the report show a failure when there was one to mark |
| ForeignKeyRun.FailureShows | datamigrate/report.go:168-175 | the report shows a failure for a key exactly if its drop or its restore failed, was blocked, or is unknown or still running |
| TableOrder.DataOrder | datamigrate/sqlserver_run.go:697-731 | ordered are exactly the tables that reach no cycle in the list, parents first and once each; ordered and blocked together permute distinct tables |
| TableOrder.OrderedIsGood | datamigrate/sqlserver_run.go:697-731 | a distinct list with parents first contains no table that reaches a cycle or leaves the plan |
| TableOrder.StuckReachesCycle | datamigrate/sqlserver_run.go:705-729 | if every remaining table waits for another, each reaches a cycle among them |
| TableOrder.SameBlocked | datamigrate/sqlserver_run.go:697-731 | on key lists closed over the tables the round-based and the depth-first order block the same tables |
| PgPreflight.Preflight.BlockIssue | datamigrate/pgmysql_partial.go:14-28 | a diagnostic blocks exactly its table or view, else the table that its object belongs to, else the object itself, and so the object for every dependency graph; shared metadata sets the global error and blocks nothing |
| PgPreflight.Preflight.BlockedDependency | datamigrate/pgmysql_partial.go:33-52 | the search with one shared seen set ends and reports only blocked references, and what it clears is closed under dependencies |
| PgPreflight.Preflight.ObjectBlocked | datamigrate/pgmysql_partial.go:30-32 | true exactly when some reference reachable through dependencies is blocked or belongs to a blocked table |
| PgPreflight.Preflight.ProtectTargetDependencies | datamigrate/pgmysql_partial.go:124-151 | afterwards no unblocked planned table is referred to by a retained or unplanned table, only what had to be was blocked, and exactly the unusable target keys are dropped from the list |
| PgPreflight.Preflight.Visit | datamigrate/pgmysql_plan.go:876-900 | the depth-first visit lists a table behind its parents or shows a path into a cycle or out of the plan |
| PgPreflight.Preflight.OrderDataTables | datamigrate/pgmysql_plan.go:871-913 | newly blocks a table exactly when it reaches a cycle or an unplanned table; every unblocked table is listed once, behind all its parents, and no table is lost |
| PgPreflight.CycleOnStack | datamigrate/pgmysql_plan.go:879-885 | meeting a table that is still being visited closes a cycle |
| DropClosure.ExecutableTables | datamigrate/oraclemysql.go:330-350 | returns the largest set of unblocked tables whose incoming keys all come from inside it, and blocks exactly the other named tables |
| DropClosure.DropsAreUnreferenced | datamigrate/oraclemysql.go:330-350 | a key into an executable table comes from an executable, unblocked table |
| DropClosure.Tables.CheckChild | datamigrate/migration_target_dependencies.go:98-138 | decides whether all planned tables of a child's name are going to be rebuilt |
| DropClosure.Tables.ClosureLoop | datamigrate/migration_target_dependencies.go:98-138 | the loop ends at the least set above the held tables in which every table referred to by one that stays is held, completed parents exempt |
| DropClosure.Tables.Protect | datamigrate/migration_target_dependencies.go:45-139 | the check is made exactly when a table is held and another could still be dropped, and then succeeds exactly if the catalog was read and names every end of every key; held becomes the least closed set, and nothing changes when it fails |
| DropClosure.TaskScope | datamigrate/migration_target_dependencies.go:20-43 | the check covers the planned tables and every blocked partition root, under the target name its plan gives it, and holds those blocked on either side |
| DropClosure.ProtectRetained | datamigrate/migration_target_dependencies.go:16-139 | the whole check: runs that drop no table are exempt, otherwise it succeeds unless it is needed and the metadata is missing or incomplete, and then the tables held are the least closed set above those blocked before |
| DropClosure.RetainedReferNothing | datamigrate/migration_target_dependencies.go:98-138 | in a closed set a table that may still be dropped is referred to only by rebuilt tables |
| RowFit.DeclaredRowBytes | datamigrate/pgmysql_text.go:67-84 | the loop computes the row estimate, of which `RowFit.EstimateIsLargestRow` says what it means |
| RowFit.EstimateIsLargestRow | datamigrate/pgmysql_text.go:65-84 | no row whose columns keep to the sizes of their types takes more than the estimate, null bits included, and one takes exactly as much |
| RowFit.CandidateOrder | datamigrate/pgmysql_text.go:124-138 | lists exactly the widening candidates, once each, longest first |
| RowFit.KeyedColumns | datamigrate/pgmysql_text.go:100-123 | collects exactly the columns of indexes, outgoing and incoming foreign keys, or gives up on an opaque index |
| RowFit.LongestAreBest | datamigrate/pgmysql_text.go:136-147 | no choice of as many candidates brings the row lower than the longest ones |
| RowFit.WidenLongest | datamigrate/pgmysql_text.go:139-150 | widens a smallest sufficient choice of candidates, or nothing when no choice suffices |
| RowFit.FitRow | datamigrate/pgmysql_text.go:88-160 | leaves the columns unchanged or brings the estimate to at most 65535, never alters a keyed column, and is minimal |
| SnapshotEncoding.SnapshotStream | portable_upgrade.go:302-334 | the walk hashes the stream of all entries but the root lock file, and refuses exactly when an unsupported entry is among them |
| SnapshotEncoding.PrintEntry | portable_upgrade.go:307-320 | an entry is written as the word dir or file, its path, for a file its size in decimal and permissions in octal, each ended by a zero byte, and the bytes of the file |
| SnapshotEncoding.StreamDeterminesTree | portable_upgrade.go:302-334 | two walks with the same stream come from trees that agree in every path, kind, length, permission and content, the root lock file aside |
| SnapshotEncoding.FirstEntry | portable_upgrade.go:307-320 | one entry can be read off the front of a stream in only one way |
| StringLiterals.NormalizeMySQLStrings | datamigrate/pgmysql_target.go:449-507 | the byte loop gives what reading with backslash escapes and writing with doubled quotes gives, with the same error |
| StringLiterals.Preserves | datamigrate/pgmysql_target.go:449-507 | read with doubled quotes only, the written text has the values and other bytes that the original has with escapes |
| StringLiterals.UnescapeExactly | datamigrate/pgmysql_target.go:480-496 | a letter behind a backslash stands for a byte exactly if a writer would escape that byte by that letter |
| StringLiterals.EscapedReadsBack | datamigrate/pgmysql_target.go:464-504 | every value that was written with escapes is read back, whatever follows its closing quote |
| StringLiterals.NamesAndLiteralsKept | datamigrate/pgmysql_target.go:393-395 | when apostrophes occur in literals only, the rewrite succeeds and keeps names, literal values and all other bytes |
| StringLiterals.KeptExactly | datamigrate/pgmysql_target.go:449-507 | for every text readable with quoted names, names, values and other bytes are kept if and only if reading apostrophes alone also ends and decodes exactly the escapes that stand in literals |
| StringLiterals.KeptWithoutBackslash | datamigrate/pgmysql_target.go:449-507 | in particular, for such a text without backslashes, if and only if its apostrophes are even in number |
| StringLiterals.ApostropheInNameChangesIt | datamigrate/pgmysql_target.go:449-455 | a quoted name with apostrophes that the rewrite turns into another name |
| ViewLexer.LexOscarView | datamigrate/oscar_view.go:23-190 | the tokens are the specified ones and their texts, joined, are the input |
| ViewLexer.FindShape | datamigrate/oscar_view.go:28-188 | the switch on the characters at a position takes the specified case |
| ViewLexer.IsIndex | datamigrate/oscar_view.go:30-36 | a bracket is an index exactly behind a quoted name, a closing parenthesis or bracket, and a word that is ARRAY or not reserved |
| ViewRunes.DecodesEncoded | datamigrate/oscar_view.go:29 | every character in UTF-8 is read as that character, whatever follows |
| ViewRunes.EncodedExactly | datamigrate/oscar_view.go:29 | bytes are taken for a character beyond ASCII if and only if they begin with the UTF-8 form of one |
| ViewRunes.EncodesDecoded | datamigrate/oscar_view.go:29 | and then they are the UTF-8 form of the character read; any other byte is read alone |
| ViewLexer.FindCommentEnd | datamigrate/oscar_view.go:46-63 | finds the end of a nested comment |
| ViewLexer.FindStringEnd | datamigrate/oscar_view.go:82-108 | finds the end of a string literal with doubled quotes and, where they count, backslash escapes |
| ViewLexer.FindNameEnd | datamigrate/oscar_view.go:124-149 | decodes a quoted name and finds its end |
| ViewLexer.TokensWellFormed | datamigrate/oscar_view.go:10-14 | every token text is what its kind promises; a quoted name's text is the doubled form of its decoded name |
| ViewLexer.QuotedNameDecodes | datamigrate/oscar_view.go:124-149 | wherever a quoted name is written and no double quote follows, the lexer reads one token and decodes that name; with a quote behind it names join, which `ViewJoins.JoinsExactly` covers |
| ViewLexer.QuotedNameLexes | datamigrate/oscar_view.go:235 | lexing a quoted name gives exactly one token with that name |
| ViewLexer.LiteralText | datamigrate/oscar_view.go:82-108 | an ordinary literal ends where a reader of doubled quotes ends it, and its text is the quoted value |
| ViewPairs.Pair | datamigrate/oscar_view.go:250-276 | fails exactly on unbalanced parentheses; otherwise pairs each with the one that closes it and finds the FROM of expressions |
| ViewPairs.FlagsFollowDepth | datamigrate/oscar_view.go:336-349 | the stack of FROM flags is as deep as the nesting, so it never underflows |
| ViewPairs.FlagRestored | datamigrate/oscar_view.go:340-349 | after a closing parenthesis the flag is what it was before the opening one |
| ViewClauses.FlagIsFromList | datamigrate/oscar_view.go:336-356 | in balanced text the flag is set at a position if and only if, inside the same parentheses, a FROM that is not that of an expression or a JOIN stands before it and no SELECT, WHERE, GROUP, HAVING, ORDER, UNION, LIMIT or OFFSET between them |
| ViewKeep.Preserve | datamigrate/oscar_view.go:277-335 | preserved are exactly EXTRACT fields, interval units, collation names, cast types and type names after a double colon |
| ViewPreserved.PreservedExactly | datamigrate/oscar_view.go:277-335 | a token is preserved if and only if it is a field of EXTRACT up to its FROM, one of the units behind the literal of an INTERVAL, part of the name of a collation, behind an AS directly inside the parentheses of a CAST, part of the type name behind a double colon, or one of the words that continue that type after its arguments |
| ViewKeep.KeepCast | datamigrate/oscar_view.go:300-314 | preserves everything behind an AS that lies directly inside the parentheses of the CAST |
| ViewKeep.AsFromIsFirst | datamigrate/oscar_view.go:302-313 | skipping nested parentheses stops at the first AS of the CAST itself |
| ViewNames.Treat | datamigrate/oscar_view.go:358-406 | treats one dotted name in place as specified |
| ViewNames.RewriteSchema | datamigrate/oscar_view.go:236-249 | empties a stripped schema together with the following token, and requotes any other quoted schema |
| ViewRewriting.RunTracks | datamigrate/oscar_view.go:336-407 | over the whole rewriting a name becomes itself, its quoted or upper-cased quoted form or, if stripped, nothing together with its dot; nothing else changes but blanked dots |
| ViewRewriting.LiteralsAndPunctuation | datamigrate/oscar_view.go:336-407 | literals stay as they are and punctuation changes only by blanking the dot after a stripped schema |
| ViewRewriting.SkippedNameStays | datamigrate/oscar_view.go:358-391 | a name skipped where it begins keeps all its parts, although later parts are looked at again |
| ViewRewriting.PreservedKept | datamigrate/oscar_view.go:200-202 | names that begin at a preserved token keep their spelling |
| ViewRewriting.KeywordsKept | datamigrate/oscar_view.go:200-202 | reserved words that stand alone keep their spelling |
| ViewRewriting.FirstPartExact | datamigrate/oscar_view.go:361-406 | the first part of a name ends up exactly as the lexed text decides, whatever was rewritten before |
| ViewRewriting.LastPartQuoted | datamigrate/oscar_view.go:393-406 | the last part of a relation or column name ends up upper-cased and quoted, however often it is visited |
| ViewSchemas.DotsGoWithSchemasExactly | datamigrate/oscar_view.go:236-249 | after the whole rewriting every dot of a name that is gone has lost its schema too, if and only if, of the schemas its first visit strips, each but the first is spared: the part behind the stripped one before it is preserved, or is that schema itself and a reserved word |
| ViewSchemas.Resurrected | datamigrate/oscar_view.go:361-406 | otherwise a schema comes back, upper-cased and quoted, without its dot |
| ViewSchemas.OneSchemaIsSafe | datamigrate/oscar_view.go:236-249 | a name with at most one stripped part meets the condition |
| ViewRewriting.EmptiedNames | datamigrate/oscar_view.go:236-249 | a name is emptied only if it is stripped and its dot disappears with it |
| ViewParts.TwoPartName | datamigrate/oscar_view.go:392-406 | in a name of two parts in relation position or before `.*` the first is a schema, stripped or kept as spelled; otherwise both are upper-cased and quoted |
| ViewParts.ThreePartName | datamigrate/oscar_view.go:392-406 | of schema, table and column only the schema is treated as one, although the table may be visited again |
| ViewParts.FunctionKept | datamigrate/oscar_view.go:376-384 | the name of a function keeps its spelling, however its schemas are stripped and however often it is visited |
| ViewMeaning.TreatmentExactly | datamigrate/oscar_view.go:358-406 | told from the text alone: which names are left alone, which are calls (and not an alias with columns in a FROM list or a common table expression with columns), and which parts of the others are schemas |
| ViewMeaning.StrippedExactly | datamigrate/oscar_view.go:236-241 | the source schema matches exactly and a listed schema by case folding without surrounding space; an empty source schema matches nothing |
| ViewMeaning.OnePartName | datamigrate/oscar_view.go:385-406 | a single name that is no call and no literal's type ends up upper-cased and quoted, a reserved word unchanged |
| ViewMeaning.LeftAlone | datamigrate/oscar_view.go:358-391 | a name headed by a preserved token, or in front of a literal, keeps all its tokens |
| ViewMeaning.TwoPartText | datamigrate/oscar_view.go:392-406 | behind FROM, JOIN, ONLY or LATERAL, behind a comma of a FROM list, and in front of `.*` the first of two parts ends as a schema, gone with its dot if stripped and spelled as before if not; elsewhere it ends upper-cased and quoted; the second part always does |
| ViewMeaning.ThreePartText | datamigrate/oscar_view.go:392-406 | of schema, table and column the schema goes with its dot or keeps its spelling and the others end upper-cased and quoted |
| ViewMeaning.CallText | datamigrate/oscar_view.go:366-384 | a called function keeps the spelling of its own name, and the first part in front of it goes with its dot or keeps its spelling |
| ViewMiddle.MiddlePart | datamigrate/oscar_view.go:361-406 | every part between the first and the last of a dotted name of any length ends up as its last visit decides, and that visit is read off the lexed text: the one behind the nearest schema before it that the first visit strips, or the first visit |
| ViewMiddle.MiddleFound | datamigrate/oscar_view.go:361-406 | such a schema and the end of the chain behind it exist for every middle part |
| ViewRewriting.BlankBeforeName | datamigrate/oscar_view.go:236-249 | a dot is dropped only in front of another part of its name |
| ViewNormalize.Rewrite | datamigrate/oscar_view.go:336-407 | the in-place loop with its flag stack performs the specified rewriting, whose effect on names `ViewMeaning` tells from the text, and never pops an empty stack |
| ViewNormalize.NormalizeOscarView | datamigrate/oscar_view.go:209-413 | fails exactly on text that cannot be lexed or has unbalanced parentheses; otherwise replaces significant tokens one by one and leaves comments and white space alone |
| ViewNormalize.WovenItself | datamigrate/oscar_view.go:408-412 | with every significant token put back as it was, the text is the input |
| ViewExample.SecondSchemaReturns | datamigrate/oscar_view.go:361-406 | the text `a.b.f()` is lexed, paired and rewritten into the upper-cased quoted `b` directly before `f()`, for every context that strips `a` and `b` and in which `b` is not reserved |
| ViewRelex.ReadsStops | datamigrate/oscar_view.go:28-188 | behind every token the lexer reads stands nothing that would continue it, for each of the ten kinds of token |
| ViewRelex.ReadsAgain | datamigrate/oscar_view.go:28-188 | a token is read again in another text wherever its bytes and first character are the same and what follows does not continue it |
| ViewJoins.Relexes | datamigrate/oscar_view.go:23-190 | a text put together from tokens lexes into exactly those that are not empty if and only if each is read where it stands |
| ViewJoins.SameRune | datamigrate/oscar_view.go:25-30 | a token that stays keeps its first character, valid UTF-8 or not, whatever is done to names and dots behind it |
| ViewJoins.RelexesExactly | datamigrate/oscar_view.go:23-190 | when names are quoted anew and names and dots dropped, the text lexes into exactly the tokens that are left if and only if no two neighbours join |
| ViewJoins.JoinsExactly | datamigrate/oscar_view.go:23-190 | neighbours join if and only if one was quoted anew and both begin with a double quote, or a bracketed name comes to stand behind a name quoted anew, or both stayed, something between them was dropped and their own texts fuse |
| ViewReread.NormalizedRelexes | datamigrate/oscar_view.go:408-412 | for every successful normalization: it returns the text of the rewritten tokens, and this text lexes into exactly those that are left, with their kinds and decoded names, if and only if no two neighbours join, which is so exactly when none meet as `ViewJoins.JoinsExactly` says |
| ViewAdjacent.AdjacentNamesJoin | datamigrate/oscar_view.go:392-412 | the text `a"b"` is normalized into one quoted name made of both, for every context in which `a` is not reserved |
| ViewAdjacent.WordsFuse | datamigrate/oscar_view.go:236-249 | the text `b"s".f()` is normalized into `bf()` and read as one word, for every context that strips `s` and in which `b` is reserved |

## Left out

- Drivers, catalog queries and SQL execution: nondeterministic answers; outside the lexer and the literal rewrite SQL text is only compared, and matched with the beginning of a creating statement.
- SHA-256, random tokens and operating-system locks: a checksum that determines what was hashed, fresh numbers, and locks that end with their process.
- UpgradeSafety.CompletedRestoreReturnsOriginal: directory permissions are outside what an entry contains; every directory copied into or out of a snapshot gets mode 0700 (portable_upgrade.go:349).
- Changes to a cold backup from outside while the updater copies, seals or reads that backup: in `Upgrade` such a change happens only at other moments.
- Loss of an independently installed runtime is modelled only while a marker that keeps it is present, the one case the code handles.
- Staging and verification of the new package (portable_upgrade.go:108-121): a staged package is taken to be complete.
- Path checks, edition checks and readable-file errors of the upgrade: they end a process, which the model allows anywhere.
- NativeScope.Preflight.Diagnose: which children a table's statements declare (datamigrate/damengnative/owned_names.go) is given, because it needs a SQL tokenizer; severities are error or warning.
- `nativeBlockDrop` (datamigrate/dameng_native_scope.go:173-181): it protects before it propagates, so the least-fixpoint claim is not made there.
- `blockNativeHistoryGroups` and the batching of `copyDamengNativeTable`.
- PgPreflight.Preflight.ProtectTargetDependencies: the blocks are least among the sets that list every planned table they block, because blocks inherited through dependencies are not recorded as entries.
- PgPreflight.Preflight.OrderDataTables: makes no claim about how often a table that was blocked beforehand is listed; the code lists such a table twice when its visit succeeds.
- NativePhase.ExecutePhase: a phase that ends with an error was cancelled or had a failed save; nothing is claimed about what is left then.
- The `selected` and `destructive` marks of repair units, timings, error wording and report text.
- Journal.Recorder.Observe: what else changes with a sequence's start value, the joined DDL text and the start value itself, is not part of a record here; the qualified name in the creating statement is a given text.
- Journal.Recorder.Task: the measured rollback of event hooks after a failed finalization (datamigrate/dameng_native_events.go:109-124), the last step of a run, which makes activation units pending again for a later one.
- Journal.Recorder.ExecuteNative: a writer announces its unit once and reports one outcome, another one only while reports are refused, as datamigrate/target/dameng_native_events.go:71-95 and the writers it calls do.
- RepairIndex.Recorder.ObjectPosition: whoever replaces the slice at equal length must rebuild the index, as the code's comment says (datamigrate/repair_object_index.go:26-28); otherwise `RepairIndex.StaleIndexMisleads`, and the contract says exactly when the answer is wrong.
- Journal.FinalRecord: an ordinary call may return success while a statement stays unknown, as the code does; only the compact path turns that into an error.
- Transactions of the target: a `rolled_back` event is an outcome like any other.
- IndexPrefix.PlanIndex: integers are mathematical; the guard of the adjustable columns is modelled, the unguarded addition of fixed sizes (datamigrate/oraclemysql_indexes_plan.go:65) cannot overflow here.
- The parsing of type texts into column classes in `IndexPrefix` and `RowFit`; a PostgreSQL uuid never maps to a VARCHAR.
- The stable library sort of candidates is modelled as an insertion sort.
- RowFit.FitRow: requires at least one byte per character where text rules are valid, as their validation does.
- SnapshotEncoding.StreamDeterminesTree: file sizes are taken from the content that was read; a file that changes during the walk ends it with an error.
- ViewRewriting.LastPartQuoted: a name of several parts in front of a parenthesis that is no call, as an alias with column names, is left to `ViewRewriting.RunTracks` in its last part.
- Library facts of view text: letters, digits and spaces beyond ASCII (U+FFFD is none of them), case mappings and the table of reserved words are parameters; the theorems hold for all of them.
- HTTP handlers, configuration, storage queries, logging, the frontend, and the other view worklists, which repeat the ordering argument.
