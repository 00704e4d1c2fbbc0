# A verified model of the anti-hall engine's state machinery

The anti-hall engine is a daemon and a hook client that answer an assistant's hook calls. This project models the parts of it that keep
state or transform data under difficult conditions, as Dafny functions, state machines and classes, and proves what they promise over
all inputs, all runs and all interleavings. `dafny verify dfyconfig.toml` checks it.

Each imperative part is written twice: as methods that update fields or move positions in the order the original does, and as a function
that the methods are proved against. The laws are then proved of the function, over whole runs.

## What is modelled

- **The store** (`HotTables`, `MemLayer`, `GroupCommit`, `Engine`, `EngineAnswers`, `Coherence`, `ReadVersions`, `StoreReads`, `StoreLaws`,
  `StoreAnswers`, `StoreCaps`, `WriteIds`, `Migrations`). Jobs are applied in batches,
  each in its own savepoint inside one transaction, published to a memory layer and then answered, while readers promote what they read,
  memory evicts and the process may crash between any two steps. Every statement may fail; the clock may move either way.
- **Settings** (`Values`, `Settings`, `SettingTexts`, `UserFile`, `SettingOverlay`, `Order`, `SortedRows`, `LeakedValues`, `OverlayPool`,
  `EffectiveReads`, `Reload`, `SnapshotReads`, `HeldValues`, `Watch`). Layers of a setting, deep merge and shape check, the overlay of values that
  every reader searches without a lock, and the reloads that swap one snapshot for another.
- **State files** (`AtomicNames`, `StateFiles`, `StateFileOrder`, `StateFileProgress`, `Deadline`). Writes staged during a request and renamed into place only
  when its reply was delivered in time, over a file system shared by processes and threads that may be killed.
- **Hook answers** (`HookMerge`, `HookAnswers`, `MergeSums`, `MergeLaws`, `UntypedAnswers`, `StandingAnswers`, `HookCombine`,
  `HookDelivery`, `HookSequential`, `SequentialDelivery`). Many hook results become one answer.
- **Cut payloads and slow replies** (`Texts`, `EventScan`, `ScanLaws`, `SpacedScan`, `SpacedEvents`, `SlowStreak`). Finding the event of a JSON text
  (RFC 8259) cut off anywhere; the streak of slow replies.
- **Follow-ups, reports and budgets** (`Followups`, `ActionReport`, `ReportLatencies`, `Budget`).
- **The literal reader of the documentation generator** (`JsLiteral`, `JsNumbers`, `JsLiteralLaws`).

Inputs that come from outside the modelled code are parameters: the environment, how texts are trimmed and read as numbers or truth words,
whether a project value may stand over the one below, the outcome of reading files, and the clock. SQLite answers each statement as the
tables say or fails; whether memory admits or evicts an item is left open everywhere.

## Where the code and a promise differ

Each of these is a lemma: a concrete input on which they differ, or the exact condition under which the code keeps the promise, or both.

- A Set answered from its write id is published to memory although the database keeps the newer value
  (`Coherence.ReplayedSetHidesNewerValue`); memory stays right if and only if the last Set published for each key is the row stored
  (`Coherence.PublishingAgreesExactly`, `Coherence.FaithfulExactly`).
- An expiry of 2^63 or more wraps to a negative column value while memory keeps it (`Coherence.HugeExpiryIsReadDifferently`).
- Between a commit and its publication a read can go back from the new value to the old (`ReadVersions.ReadsGoBackInTheWindow`); no
  acknowledged value is hidden by an older one in a run of faithful batches (`ReadVersions.AcknowledgedIsNeverHidden`).
- The cap on a project's active keys holds over every run at given clock readings if and only if they never go back
  (`StoreCaps.KeyCapExactly`); the caps on projects and pending messages hold whatever the clock reads.
- Trimming keeps the newest records "by id", and ids are shared by all namespaces: it keeps the newest cap rows if and only if they lie
  within that many ids (`StoreLaws.TrimKeepsNewest`), where the comment on the statement promises the newest rows.
- The explanation of a locked setting shows layers above the shipped value as shadowed (`SettingOverlay.ExplainIsFaithful`).
- The hot-path number of a locked setting follows the environment (`EffectiveReads.LockedNumFollowsEnvironment`), and an environment
  number beyond the signed range differs without an upper bound (`EffectiveReads.NumIsEffectiveExactly`).
- After new defaults, a restart-only setting that no file sets is held in the snapshot and read anew elsewhere
  (`SnapshotReads.HeldDefaultIsReadAnew`), and layers kept because the files could not be read are not checked again
  (`SnapshotReads.KeptLayersAreNotRechecked`); the exact conditions are `HeldValues.HeldIsReadExactly` and
  `HeldValues.KeptLayersInRangeExactly`.
- Two hooks that give the same context, message or table of the wrong type merge, but not in two steps
  (`UntypedAnswers.UntypedStandsForNothing`); what is printed for a hook stands for it if and only if the hook conflicts alone or its
  fields have their types (`StandingAnswers.PrintedStandsExactly`).
- An event key given twice is read as its first text by the scan of a cut payload, where a parse keeps the last
  (`ScanLaws.RepeatedKeyIsReadOnce`); the two agree if and only if the first and last texts of the preferred key do
  (`ScanLaws.CutAgreesExactly`).
- White space between the value of an event field and the comma after it ends the scan, and the wrong event can be answered
  (`SpacedEvents.SpaceHidesEvent`); `SpacedEvents.EventIsBestExactly` and `SpacedEvents.EventIsParsedExactly` say exactly when the right
  one is.
- The sequential delivery, used only where no hook blocked and then inventing no block (`HookSequential.SequentialInventsNoBlock`), would
  lose a block by exit code, or one behind another top-level decision (`HookSequential.SequentialBlocksExactly`,
  `HookSequential.BlockAfterApprovalIsLost`).
- Shedding flaps when the recovery level is above the hard limit (`Budget.SheddingIsExact`).
- A streak of three or more slow replies that straddles the end of an earlier window is missed, where the comment promises a trip
  (`SlowStreak.TripsExactlyInTime`), and so is one over which the clock goes back (`SlowStreak.TripsExactly`).
- Finishing a follow-up that is not pending is logged all the same (`Followups.LogCountsCalls`).

## Model

| member | source | states |
|---|---|---|
| `HotTables.RunAppend` | ah-engine/src/db.rs:585-631 | running jobs one after another composes: tables and replies of a list of jobs are those of its parts in turn |
| `HotTables.KvStep` | ah-engine/src/db.rs:706-718 | one job changes the key-value table by exactly the row of an applied Set, and by nothing when refused, failed or replayed |
| `HotTables.MailStep` | ah-engine/src/db.rs:692-705 | one job changes the mailbox by exactly an applied Put or Take, and a Take answers the body it consumed |
| `HotTables.StepAllowed` | ah-engine/src/db.rs:681-712 | a Put or Set is applied only within the project cap, a Put only below the mailbox cap, a Set only on an active key or below the key cap |
| `StoreAnswers.PutIsAnswered` | ah-engine/src/db.rs:692-699 | a Put tried for the first time without a fault is accepted, its message stored last, if and only if its project holds a row or a waiting message, or a project may still be added, and fewer of its messages wait than the cap; which of the two errors comes otherwise, the project first; nothing else changes |
| `StoreAnswers.SetIsAnswered` | ah-engine/src/db.rs:710-718 | the same of a Set: accepted if and only if the project is held or may be added and the key is active or another may be; then its row is the one given, and no other row changes |
| `StoreAnswers.TakeIsAnswered` | ah-engine/src/db.rs:700-708 | a Take answers the first waiting message of its project and consumes just that one, or answers nothing and changes nothing |
| `StoreAnswers.MailboxTakesItsCap` | ah-engine/src/db.rs:692-699 | of any run of Puts to a project with room, exactly as many as its mailbox has places are accepted, the first ones, and stored in order; every later one is refused as full |
| `StoreAnswers.EmptyMailboxTakesItsCap` | ah-engine/src/db.rs:692-699 | from empty tables the first cap Puts of a project are all accepted and every further one is refused |
| `StoreAnswers.EmptyProjectTakesItsKeys` | ah-engine/src/db.rs:710-718 | from empty tables the first cap keys of a project are all set and every later new one is refused |
| `HotTables.Conn.CheckProject` | ah-engine/src/db.rs:681-688 | the statements of the check let a write pass only when the project is known or below the cap, and refuse with that error only when not |
| `HotTables.Conn.RunVerb` | ah-engine/src/db.rs:690-720 | the statements of a project write, any of which may fail, answer and leave what the specification says, or a storage error; the record of write ids is untouched |
| `HotTables.Conn.RunRt` | ah-engine/src/db.rs:633-652 | the statements of a realtime snapshot, when none fails, leave exactly the specified tables |
| `HotTables.Conn.RunOp` | ah-engine/src/db.rs:585-631 | the statements of a job, when none fails, answer and leave exactly what the specification of the job says, a recorded write id included |
| `HotTables.Conn.RunInSavepoint` | ah-engine/src/db.rs:567-579 | a job whose statements fail part way leaves the tables as they were before it |
| `MemLayer.Mem.Committed` | ah-engine/src/db.rs:277-295 | after a committed Set the old value is gone and only the new one, or nothing, is cached; the sequence moves by one |
| `StoreReads.Server.Get` | ah-engine/src/store.rs:138-156 | a read by key, other threads acting between its sections: it is a reader's steps in the interleaving, and it answers the active cached item or else the row stored at the moment of its read step |
| `StoreReads.Server.Promote` | ah-engine/src/db.rs:241-275 | promoting a value read under a sequence, other threads acting between the first checks and the insert, is exactly the reader's check and insert steps of the interleaving |
| `StoreReads.GetAcknowledged` | ah-engine/src/store.rs:138-156 | a read by key begun after a write was acknowledged, whatever other threads do meanwhile, answers the tables as its batch or a later one left them, or a Set of a later batch being published |
| `StoreReads.Server.Publish` | ah-engine/src/db.rs:277-295 | making a committed Set active, other threads acting between its sections, is exactly the three publication steps of the interleaving |
| `MemLayer.Mem.PromoteInsert` | ah-engine/src/db.rs:264-272 | under the lock, the same two checks decide whether the read value is inserted; otherwise the cache is unchanged |
| `GroupCommit.BatchesRunOneByOne` | ah-engine/src/db.rs:519-582 | however the queue is cut into batches, and whichever commits fail, tables and replies are those of the jobs one at a time |
| `GroupCommit.CutIsInvisible` | ah-engine/src/db.rs:519-535 | two ways of cutting the same jobs give the same tables and replies |
| `GroupCommit.FailedBatchLeavesNoTrace` | ah-engine/src/db.rs:551-552 | a failed batch can be dropped from the history without changing the tables |
| `GroupCommit.Writer.RunTx` | ah-engine/src/db.rs:565-582 | one transaction over a batch is the in-order run of its jobs, or leaves the database as it was |
| `GroupCommit.Writer.Publish` | ah-engine/src/db.rs:553-557 | what is published to memory is what the batch's committed Sets say, in order, and the sequence moves once for each |
| `GroupCommit.Writer.CommitBatch` | ah-engine/src/db.rs:537-563 | a batch of barriers touches nothing; any other is applied in one transaction, counted once, published and answered, a failed commit failing every job |
| `Engine.DurableAlways` | ah-engine/src/db.rs:430-448 | in every interleaving, crashes included, the committed tables are the in-order run of the finished batches, a failed one contributing nothing, and every job answered Ok is in a committed batch with that answer |
| `Engine.JobsFinishInOrder` | ah-engine/src/db.rs:421-448 | jobs finish in the order they were queued, each at most once; a crash drops only a tail |
| `Engine.AnswersComeInOrder` | ah-engine/src/db.rs:553-562 | answers go out in the order the jobs were queued, each job answered at most once and only when its batch is finished and published |
| `Engine.NothingEarlierWaits` | ah-engine/src/db.rs:445-448 | whatever crashes, once a job is answered nothing queued before it is still waiting |
| `Engine.BarrierWaitsForAll` | ah-engine/src/db.rs:445-448 | while the process lives, an answer to a barrier means that every job queued before it has finished |
| `Engine.AnswersAreOwn` | ah-engine/src/db.rs:553-562 | over every run each job that was answered, Ok or not, got the reply of its own place in its own batch: what running the batch in order answers there, or the error that failed it |
| `EngineAnswers.AllAreAnswered` | ah-engine/src/db.rs:553-562 | while the process lives, the answers given are exactly the jobs of the finished batches, in order, less those of the last batch still to come: none is passed over |
| `EngineAnswers.IdleOwesNothing` | ah-engine/src/db.rs:421-448 | while the process lives, a writer that is idle with nothing queued has answered every job ever queued, in order |
| `Coherence.CoherentAlways` | ah-engine/src/db.rs:237-295 | in every interleaving of writer, readers, eviction and crashes, a cached value is the stored one unless a committed Set of its key is still to be published (runs of faithful batches) |
| `Coherence.AcknowledgedSetsAreRead` | ah-engine/src/db.rs:537-563 | with no Set of a key still to be published, a read through memory is a read of the database |
| `ReadVersions.ReadsAreRecent` | ah-engine/src/db.rs:237-295 | at every moment of every run a read answers the tables as stored, or while a committed Set of the key is unpublished those before that batch or one of the batch's own Sets |
| `ReadVersions.AcknowledgedIsNeverHidden` | ah-engine/src/db.rs:429-438 | once a write is acknowledged, every later read, in the publication window too, answers the tables as its batch or a later one left them, or a Set of a later batch being published: never an older value |
| `ReadVersions.FirstTimeSetsAreNeverHidden` | ah-engine/src/db.rs:429-438 | the same in a client's terms: while no Set is answered from its write id and expiries fit |
| `ReadVersions.ReadsGoBackInTheWindow` | ah-engine/src/db.rs:244-273 | between a commit and its publication, before any answer, a read can give the new value and the next one the old |
| `Coherence.FaithfulExactly` | ah-engine/src/db.rs:617-630 | a batch is faithful exactly when the last Set of each key was applied with an expiry that fits, or replayed a row still stored |
| `Coherence.PublishingAgreesExactly` | ah-engine/src/db.rs:553-557 | publishing a batch keeps memory equal to the database if and only if the batch is faithful |
| `Coherence.FirstTimeSetsAreRead` | ah-engine/src/db.rs:537-563 | in a client's terms: while no Set is answered from its write id and expiries fit, a key with no Set still to be published is read as stored |
| `Coherence.ReplayedSetHidesNewerValue` | ah-engine/src/db.rs:617-622 | a Set, a second Set, and the first one again under its write id: the database keeps the second value and memory the first |
| `Coherence.HugeExpiryIsReadDifferently` | ah-engine/src/db.rs:716 | an expiry of 2^64-1 is expired in the database and unexpired in memory |
| `StoreLaws.ReplaysCanBeDropped` | ah-engine/src/db.rs:617-630 | any run equals the run without the jobs whose write id was already recorded |
| `StoreLaws.FirstAnswerStands` | ah-engine/src/db.rs:618-622 | once a write id was answered, every later job with it changes nothing and is answered the same, unless storage itself fails |
| `StoreLaws.RecordedExactly` | ah-engine/src/db.rs:626-629 | a write id is recorded exactly when a job with it was answered Ok, so a refused job may be tried again |
| `WriteIds.WriteIdIsOnce` | ah-engine/src/db.rs:617-630 | over every run, crashes and failed batches included, once a write id was answered in a committed batch every later job with it changes nothing and is answered the same, unless storage fails under it |
| `WriteIds.AckedIsRecorded` | ah-engine/src/db.rs:617-630 | what was acknowledged under a write id is recorded under it in the tables any crash leaves |
| `WriteIds.AcksOfOneIdAgree` | ah-engine/src/db.rs:617-630 | all acknowledgements of one write id say the same |
| `StoreLaws.MailboxIsFifo` | ah-engine/src/db.rs:692-705 | waiting messages followed by accepted ones are the ones handed out followed by those waiting now, for every project and any run |
| `StoreCaps.ProjectAndMailCapsHold` | ah-engine/src/db.rs:681-704 | projects and pending mail never pass their caps over any run, whatever the clock reads |
| `StoreCaps.KeyCapHolds` | ah-engine/src/db.rs:706-717 | active keys never pass their cap over any run whose clock does not go back |
| `StoreCaps.KeyCapExactly` | ah-engine/src/db.rs:706-717 | for any positive caps and any clock readings: every run at those readings keeps the key cap after each job if and only if the readings never go back |
| `StoreCaps.ClockBackPassesCap` | ah-engine/src/db.rs:707-712 | any positive key cap is passed wherever one reading is below the one before: a full project's expired keys and one more are active together |
| `StoreLaws.TotalsStayExact` | ah-engine/src/db.rs:588-592 | over any run the impact totals count exactly the events of each combination |
| `StoreLaws.SnapshotReplacesNamespace` | ah-engine/src/db.rs:633-646 | a snapshot replaces the rows of its namespace whole, the last of a repeated key winning, and touches no other namespace |
| `StoreLaws.TrimKeepsNewest` | ah-engine/src/sql.rs:273-274 | trimming keeps a newest part of at most the cap, and the newest cap rows exactly when they lie within that many ids |
| `StoreLaws.TrimLeavesOthers` | ah-engine/src/sql.rs:273-274 | trimming a namespace removes no record of another |
| `StoreLaws.EdgesStayInOrder` | ah-engine/src/db.rs:647-650 | change records stay in id order over any run |
| `StoreAnswers.ChangesAreAppended` | ah-engine/src/db.rs:647-648 | the changes of a snapshot are appended to the change records in order, each with its text and the next id |
| `StoreAnswers.SnapshotChangesAreKept` | ah-engine/src/db.rs:647-650 | a snapshot with no more changes than its cap leaves them all, in order, as the newest change records |
| `Migrations.Connection.RunMigrate` | ah-engine/src/db.rs:363-375 | the loop commits the migrations from the recorded version on, each with its version bump, up to the first that fails |
| `Migrations.AlwaysExact` | ah-engine/src/db.rs:362-375 | over any openings by any builds, cut short anywhere, the file holds exactly the migrations its version counts, each once and in order |
| `Migrations.OpensOrRefuses` | ah-engine/src/db.rs:362-367 | an opening that succeeds leaves all its build knows and repeating it changes nothing; a newer file is refused and left alone, and only then with that error |
| `Values.ShapeIsLike` | ah-engine/src/cfgstore.rs:284-319 | a shipped value passes the shape check against another exactly when it is like it, kind by kind |
| `Values.HasItsOwnShape` | ah-engine/src/cfgstore.rs:292-306 | a shipped value has its own shape exactly when its lists are of one kind |
| `Values.RunMerge` | ah-engine/src/cfgstore.rs:322-333 | the merge in place, field by field, is the specified merge |
| `Values.MergeTwice` | ah-engine/src/cfgstore.rs:322-333 | merging the same user value twice is merging it once, for all values |
| `Values.MergeReads` | ah-engine/src/cfgstore.rs:322-333 | for a user value of the default's shape, every path of the merge reads the user's node where it is no table, a table of the default's fields where it is one, and the default's node elsewhere: no field is lost or invented |
| `Values.MergeKeepsShape` | ah-engine/src/cfgstore.rs:284-333 | the merge passes the shape check again |
| `Values.MergesKeepShapeExactly` | ah-engine/src/cfgstore.rs:284-333 | every merge over a table keeps its shape exactly when the table's own lists are of one kind |
| `Settings.ClampIsInRange` | ah-engine/src/cfgstore.rs:335-344 | clamping gives the nearest number in range, and one in range exactly when the bounds are in order |
| `Settings.ResolvedIsInRange` | ah-engine/src/cfgstore.rs:482-505 | a resolved integer is in range whichever layer supplied it, except a shipped one that is not |
| `Settings.ResolvedInRangeExactly` | ah-engine/src/cfgstore.rs:482-505 | with no check of the layers at all, a resolved integer is a number in range exactly when a shipped or user value that is used as it stands is one |
| `Settings.ResolvedHasShape` | ah-engine/src/cfgstore.rs:368-413 | every resolved value has the shape of the shipped one |
| `Settings.SplitJoins` | ah-engine/src/cfgstore.rs:356-359 | splitting a key at its dots loses nothing |
| `Settings.BothFormsAreFound` | ah-engine/src/cfgstore.rs:346-360 | a value is found under its flat key and under the nested objects of its dotted path |
| `Settings.FilesAgree` | ah-engine/src/cfgstore.rs:368-413 | a value the user file accepts has the same effect in settings.json, flat or nested, where it is read as itself and nothing above is set |
| `SettingTexts.TruthFromText` | ah-engine/src/cfgstore.rs:398-407 | a text gives a truth setting true exactly when it is a true word, false exactly when it is a false word and no true word, and is passed over otherwise |
| `SettingTexts.NumberFromText` | ah-engine/src/cfgstore.rs:390-396 | a text or number gives a numeric setting the nearest number in range to the whole number it reads as, and nothing where it reads as none |
| `SettingTexts.TextFromText` | ah-engine/src/cfgstore.rs:380-388 | a scalar gives a text setting its trimmed text, unless that is empty |
| `SettingTexts.WholeFromShaped` | ah-engine/src/cfgstore.rs:370-378 | a list or table setting takes a nonempty list or table of its shape, merged over the shipped one, and nothing else |
| `SettingTexts.LookupIsFieldOrPath` | ah-engine/src/cfgstore.rs:346-360 | a key is looked up as a field of that very name, else along the nodes its dotted parts lead through, and is found exactly when one of the two is there |
| `SettingTexts.EnvironmentComesFirst` | ah-engine/src/cfgstore.rs:482-505 | the nearest number in range to the environment's is what a numeric setting that is not locked resolves to |
| `SettingTexts.SettingsComeSecond` | ah-engine/src/cfgstore.rs:482-505 | without it, what settings.json gives, where that gives anything |
| `SettingTexts.UserFileComesThird` | ah-engine/src/cfgstore.rs:482-505 | where that gives nothing, the user file's value merged over the shipped one, else the shipped value |
| `SettingTexts.TruthIsResolved` | ah-engine/src/cfgstore.rs:482-505 | a truth setting written as a text in settings.json resolves to what the words say, else to what the layers below give |
| `SettingTexts.NumberIsResolved` | ah-engine/src/cfgstore.rs:482-505 | a numeric setting written as a text or number in settings.json resolves to the nearest number in range to it |
| `SettingTexts.TextIsResolved` | ah-engine/src/cfgstore.rs:482-505 | a text setting written in settings.json resolves to its trimmed text |
| `UserFile.WrittenIsRead` | ah-engine/src/cfgstore.rs:644-661 | a shipped value written in the user file is read as that value |
| `UserFile.ShippedValueIsAccepted` | ah-engine/src/cfgstore.rs:665-688 | writing a setting's shipped value in the user file is accepted and changes no effective value |
| `UserFile.RunFlatten` | ah-engine/src/cfgstore.rs:665-688 | the walk over the tables, refusing as it goes, is the specified one |
| `UserFile.FlattenSetsStops` | ah-engine/src/cfgstore.rs:663-688 | a file is accepted exactly when every node where the walk stops passes its checks, and then sets those nodes' values, a later one over an earlier |
| `UserFile.FlattenIsValid` | ah-engine/src/cfgstore.rs:669-680 | what an accepted file sets is shipped, unlocked, of the right shape and in range |
| `UserFile.NestedTablesNameTheSetting` | ah-engine/src/cfgstore.rs:665-688 | a value in nested tables is that of the setting named by their names with dots between, accepted and set just when it passes that setting's checks |
| `UserFile.ChecksInOrder` | ah-engine/src/cfgstore.rs:669-680 | which refusal a value meets: locked, then unconvertible, then of the wrong shape, then out of range |
| `SettingOverlay.RunPathsOf` | ah-engine/src/cfgstore.rs:588-595 | the recursive collection fills in exactly the dotted paths of the value |
| `SettingOverlay.LookupIsNamed` | ah-engine/src/cfgstore.rs:347-360 | whatever a lookup finds, by the flat key or by the dotted walk, is one of the collected paths |
| `SettingOverlay.ProcessOverlay` | ah-engine/src/cfgstore.rs:600-621 | a one-shot process resolves just the named keys, and nothing when the files say nothing |
| `SettingOverlay.NamedKeysSuffice` | ah-engine/src/cfgstore.rs:583-621 | resolving only the named keys gives exactly the overlay that resolving every shipped setting gives |
| `SettingOverlay.ExplainIsFaithful` | ah-engine/src/cfgstore.rs:535-563 | the report applies exactly one row, the layer and value in effect; nothing unrefused stands above it exactly if the key is not locked over a value some layer holds |
| `SettingOverlay.ProjectValueIsUsed` | ah-engine/src/cfgstore.rs:511-526 | a project's value is used exactly when the setting is not locked, the environment gives it none and it may stand over the value below; one that may not is refused with its reason and the value below stays |
| `LeakedValues.LeakReadsBack` | ah-engine/src/defaults.rs:433-455 | exactly the values without nulls and oversized or fractional numbers are converted, and they read back as given |
| `LeakedValues.CanonicalReturns` | ah-engine/src/defaults.rs:121-129 | a converted value is what its own JSON is converted to |
| `LeakedValues.CanonicalIsUnique` | ah-engine/src/defaults.rs:465-466 | two converted values with the same JSON are the same value, so the reuse test finds the right one |
| `LeakedValues.ShapedIsHoldable` | ah-engine/src/defaults.rs:431-433 | every value that passed the shape check can be converted |
| `SortedRows.Search` | ah-engine/src/defaults.rs:426-429 | searching by halving finds exactly what a search from the front finds |
| `SortedRows.SortKeepsFirst` | ah-engine/src/defaults.rs:482 | sorting by key leaves the first row of each key first |
| `SortedRows.DedupKeepsFirst` | ah-engine/src/defaults.rs:483 | removing repeats leaves strictly ordered rows with the first of each key |
| `OverlayPool.SameContents` | ah-engine/src/defaults.rs:484-489 | rows of the pool are the same addresses exactly when they have the same contents |
| `OverlayPool.Overlay.Overlaid` | ah-engine/src/defaults.rs:419-429 | a read answers exactly what the installed contents hold for the key |
| `OverlayPool.Overlay.PoolAll` | ah-engine/src/defaults.rs:463-481 | every given value that can be held is pooled once, equal ones reused |
| `OverlayPool.Overlay.SetOverlay` | ah-engine/src/defaults.rs:457-503 | after an install every key answers its first convertible value, the generation moves exactly if the contents changed, equal contents are the same table, and pool and tables hold exactly the distinct contents ever given and installed |
| `EffectiveReads.InstallsOverlay` | ah-engine/src/defaults.rs:457-483 | installing an overlay listed in any order sets exactly its keys, each to its value |
| `EffectiveReads.RawIsEffective` | ah-engine/src/defaults.rs:540-544 | with a snapshot's overlay installed, a read gives what the layers resolve, unless the environment supplies it |
| `EffectiveReads.NumIsEffectiveExactly` | ah-engine/src/defaults.rs:553-565 | the hot-path number is the snapshot's exactly when an environment number beyond i64 meets an upper bound and a number nothing sets is shipped within bounds (unlocked keys) |
| `EffectiveReads.LockedNumFollowsEnvironment` | ah-engine/src/defaults.rs:551-557 | a locked number still follows the environment in the hot-path read: it is the snapshot's exactly when the environment's number clamps to the shipped one, or there is none and the shipped one is in range |
| `EffectiveReads.Derived.Get` | ah-engine/src/defaults.rs:285-301 | a derived value is what would be computed from the present contents |
| `EffectiveReads.InstallUnderDerived` | ah-engine/src/defaults.rs:457-503 | an install never lets a kept derived value pass for fresh unless the contents are those it was computed from |
| `Reload.RunBuild` | ah-engine/src/cfgstore.rs:783-809 | the loop over the resolved settings holds exactly the restart-only ones whose value differs and lists exactly those |
| `Reload.ConfigStore.Reload` | ah-engine/src/cfgstore.rs:958-1012 | a reload moves defaults, snapshot and overlay as specified, branch by branch, and answers accordingly |
| `Reload.VersionCountsInstalls` | ah-engine/src/cfgstore.rs:758-760 | the version grows by one for each snapshot installed and at no other time |
| `Reload.NoInstallNoChange` | ah-engine/src/cfgstore.rs:956-985 | over any run that installs no snapshot, what is in effect, pending and read stays as it was |
| `Reload.UnusableRunsChangeNothing` | ah-engine/src/cfgstore.rs:964-985 | over any run of invalid defaults, or invalid files under unchanged defaults, nothing is installed and nothing but the error changes, which is kept |
| `Reload.RestartOnlyHolds` | ah-engine/src/cfgstore.rs:786-797 | over any run of reloads a setting that is restart-only all along keeps the value of the first load |
| `Reload.PendingExactly` | ah-engine/src/cfgstore.rs:767-768 | after any run such a setting is pending exactly when the files now ask for another value than the first load's |
| `Reload.ReadFilesTakeEffect` | ah-engine/src/cfgstore.rs:978-1010 | after a reload that could read its files a setting is what they ask for exactly when it is not pending |
| `Reload.ReloadSettles` | ah-engine/src/cfgstore.rs:994-997 | reading the same valid files again answers unchanged and changes nothing |
| `Reload.OverlayFollows` | ah-engine/src/cfgstore.rs:886-900 | the installed overlay is always the active snapshot's |
| `Reload.HooksAreOfLastRead` | ah-engine/src/cfgstore.rs:974-1010 | after any run the hooks in force are those of the last files that could be read |
| `Reload.DefaultsAreOfLastGiven` | ah-engine/src/cfgstore.rs:964-973 | after any run the defaults in use are the last valid ones given |
| `SnapshotReads.ReadsFollowSnapshotExactly` | ah-engine/src/cfgstore.rs:33-40 | after any run a read gives the active snapshot's value exactly when a shipped value in it is still the one shipped |
| `SnapshotReads.ReadsFollowSnapshot` | ah-engine/src/cfgstore.rs:33-40 | under unchanged defaults every read gives the active snapshot's value |
| `SnapshotReads.HeldDefaultIsReadAnew` | ah-engine/src/cfgstore.rs:788-797 | new defaults under a restart-only setting that no file sets: the snapshot holds the old value, reads give the new one |
| `SnapshotReads.KeptLayersAreNotRechecked` | ah-engine/src/cfgstore.rs:974-977 | new defaults with unreadable files: a kept user value is not checked against the new bounds |
| `HeldValues.KeptLayersInRangeExactly` | ah-engine/src/cfgstore.rs:974-977 | from any start and any reloads, then any defaults adopted while the files cannot be read: a number not pending is in the range now shipped exactly when the shipped value is, where it is used, and the kept user value is, where that is used |
| `HeldValues.PendingInRangeExactly` | ah-engine/src/cfgstore.rs:786-797 | a pending setting is in the range now shipped exactly when what was asked for when it was last in force is |
| `HeldValues.RunsAreInEffect` | ah-engine/src/cfgstore.rs:783-809 | from any start and after any reloads, a setting that is not pending has the value its layers and defaults resolve to |
| `HeldValues.HeldIsReadExactly` | ah-engine/src/cfgstore.rs:788-797 | after any run, a setting restart-only all along is read as the snapshot holds it exactly when a file gave that value when it was last asked for, or the shipped value is again that of the first load |
| `HeldValues.HeldShippedIsReadExactly` | ah-engine/src/cfgstore.rs:788-797 | of one that only the shipped files ever supply: exactly when its shipped value is again that of the first load |
| `Watch.Watcher.RunPoll` | ah-engine/src/cfgstore.rs:1016-1045 | a poll moves the watcher as specified and reloads exactly then |
| `Watch.ReloadsAreSettled` | ah-engine/src/cfgstore.rs:1014-1045 | a reload happens only for a change shown by every look that counted for at least the settling time |
| `Watch.SettledIsReloaded` | ah-engine/src/cfgstore.rs:1014-1045 | a change shown for the settling time is not passed over by the next look that counts, whatever change was pending before it |
| `AtomicNames.TmpPathsDiffer` | ah-engine/src/atomic.rs:35-48 | two writes share a temporary name only if process and counter are the same, whatever their targets and styles |
| `AtomicNames.TmpPathIsTemp` | ah-engine/src/atomic.rs:35-48 | every temporary name has an ending that no state file has |
| `AtomicNames.TmpPathIsSibling` | ah-engine/src/atomic.rs:35-48 | a temporary name is the target's whole name followed by process, counter and suffix; in the style that keeps the ending, a file with something before `.json` has them before that ending instead |
| `StateFiles.StateFilesAreWhole` | ah-engine/src/atomic.rs:63-140 | over every run of processes, threads and kills, a state file holds its initial content, a whole write made outside a request, or a whole staged write whose request was delivered in time |
| `StateFiles.TargetsChangeByRename` | ah-engine/src/atomic.rs:134-140 | a state file changes only by the rename of a complete write made for it |
| `StateFileProgress.WriteLands` | ah-engine/src/atomic.rs:63-81 | outside a request a write that nothing hinders, filled in any two pieces, replaces its target, leaves no temporary file and touches no other |
| `StateFileProgress.StagedWriteLands` | ah-engine/src/deadline.rs:215-234 | inside a request it does so when the reply was delivered before the hard deadline |
| `StateFileProgress.LateWriteLeavesNoTrace` | ah-engine/src/deadline.rs:215-227 | when the reply was not delivered, or too late, every file is as it was before the write |
| `StateFileProgress.RenameIsTold` | ah-engine/src/atomic.rs:129-140 | a tried rename counts as worked exactly when it did and its temporary file stood, and then the target holds the payload; else no file changed |
| `StateFileOrder.LandsInOrder` | ah-engine/src/deadline.rs:229-234 | over every run, kills included, the writes of a request are renamed in the order made, each tried at most once, and all that may still land were made after those tried |
| `StateFileOrder.NoneIsPassedOver` | ah-engine/src/deadline.rs:229-234 | what a delivered reply let land is tried or still waits its turn, unless its process is killed: a kill applies a prefix |
| `StateFileOrder.DiscardedNeverLands` | ah-engine/src/deadline.rs:147-159 | from the moment a write is discarded, no rename of it is ever tried in the rest of the run, not even after its process is killed and its number used again |
| `StateFiles.RunsStayTidy` | ah-engine/src/deadline.rs:189-196 | without kills and failed removals every temporary file belongs to a write that is under way or staged |
| `StateFiles.NoTempOfEndedRequest` | ah-engine/src/deadline.rs:189-196 | every temporary file is of a write under way or of one staged for the request its thread serves now: none of an ended request remains once its removals are done |
| `Deadline.LandedTarget` | ah-engine/src/deadline.rs:229-234 | landing in order, renames failing or not: a target holds what the last renamed write staged, or what it held |
| `Deadline.CutLanding` | ah-engine/src/deadline.rs:229-234 | cut after any number of writes: every target is as the prefix landed leaves it, and what the other writes staged is still in their temporary files |
| `Deadline.LandingLeavesNoTmp` | ah-engine/src/atomic.rs:134-140 | after landing no temporary file remains but one whose rename failed and whose removal failed or was not wanted |
| `Deadline.Worker.ClientWindow` | ah-engine/src/deadline.rs:174-187 | the hard deadline is never before the soft one, nor before the configured one |
| `Deadline.Worker.NoteSoftOverrun` | ah-engine/src/deadline.rs:126-135 | the answer and the mark it leaves are the specified ones, and nothing outside a request |
| `Deadline.OverrunIsNotedOnce` | ah-engine/src/deadline.rs:126-135 | over any calls in a request, its deadlines moved or not, exactly one reports the overrun: the first that asks past the soft deadline as it then stands |
| `Deadline.LastMoveStands` | ah-engine/src/deadline.rs:168-187 | the deadlines that stand after any calls are those of the last move, or the request's first ones |
| `Deadline.Worker.DiscardStagedSince` | ah-engine/src/deadline.rs:147-159 | exactly the writes staged after the mark are dropped, and exactly their files are removed but for removals that fail |
| `Deadline.Worker.CommitStaged` | ah-engine/src/deadline.rs:229-234 | every staged write is renamed in the order made, a failed rename not stopping the next |
| `Deadline.Worker.SettleStaged` | ah-engine/src/deadline.rs:215-227 | staged writes land exactly when the reply was delivered and there is no request, no hard deadline, or now is before it, whatever the soft deadline; otherwise every state file is as it was and the temporary files are removed but for removals that fail |
| `Deadline.SettleAfterWindow` | ah-engine/src/deadline.rs:174-227 | after the client's wait is set, a reply delivered before the longer of it and the configured one, less the slack, lands all that was staged, past the soft deadline too; from then on it lands nothing |
| `Deadline.Worker.Begin` | ah-engine/src/deadline.rs:160-168 | a request starts with nothing staged, what was left is removed but for removals that fail, and its deadlines are the configured ones |
| `Deadline.Worker.End` | ah-engine/src/deadline.rs:190-196 | a request ends with nothing staged and no deadline |
| `Deadline.Worker.WriteAfterReply` | ah-engine/src/atomic.rs:84-113 | outside a request the target is replaced at once; inside one it is untouched and the write is staged; a failure changes no state file |
| `HookMerge.Merger.Run` | ah-engine/parity/dispatch-lib.js:121-164 | the loops over results and fields, stopping at the first conflict, give the specified merge, whose values `HookAnswers` states |
| `HookAnswers.DecisionPrevails` | ah-engine/parity/dispatch-lib.js:62-137 | the merged decision is "deny" if any hook denies, else "defer" if any defers, else "ask" if any asks, else "allow" if any allows, else the first one given, and its reason is that of the first hook with that value |
| `HookAnswers.TextsAreJoined` | ah-engine/parity/dispatch-lib.js:126-162 | the contexts, messages and stderr of the merged answer are those of the hooks in hook order: nonempty contexts and all messages joined with their joiners, stderr run together |
| `HookAnswers.FieldsAreGiven` | ah-engine/parity/dispatch-lib.js:131-161 | every plain field of every hook is in the merged answer with the value given, and nothing else is; the hooks that give one agree on it |
| `MergeSums.PlusAssociates` | ah-engine/parity/dispatch-lib.js:121-164 | combining the sums of hook results is associative, conflict absorbing |
| `MergeSums.MergeIsSum` | ah-engine/parity/dispatch-lib.js:121-164 | the strict merge of typed results is the rendering of their sum |
| `MergeLaws.GroupsMergeAlike` | ah-engine/parity/dispatch-lib.js:119-164 | the merged answer of a group, its fields in any order, stands for the group wherever it is merged |
| `MergeLaws.ConflictAbsorbs` | ah-engine/parity/dispatch-lib.js:121-148 | a conflict within a group is a conflict of all it is part of |
| `UntypedAnswers.StandsForExactly` | ah-engine/parity/dispatch-lib.js:134-141 | the answer printed for one hook's context, decision, message or table stands for the hook among any typed answers if and only if it is a text, or for the table an object |
| `UntypedAnswers.UntypedStandsForNothing` | ah-engine/parity/dispatch-lib.js:134-141 | two hooks giving any same untyped value agree, but what is printed for one of them merges where the hook conflicts, or conflicts with the other |
| `StandingAnswers.PrintedStandsExactly` | ah-engine/parity/dispatch-lib.js:119-164 | what is printed for one hook, whatever it said, stands for it among any typed answers if and only if the hook conflicts alone or every field the merge treats by name has its type |
| `MergeLaws.AnswerKeepsHookOrder` | ah-engine/parity/dispatch-lib.js:149-157 | the answer's context is the nonempty contexts joined in hook order, its decision the least by precedence with the reason of the first hook that reached it |
| `HookCombine.BlockedKeepsReasons` | ah-engine/parity/dispatch-lib.js:93-106 | the answer of blocking hooks blocks and gives every nonempty reason in hook order; a lone one without notes is passed on byte for byte |
| `HookCombine.BlockIsNeverLost` | ah-engine/parity/dispatch-lib.js:107-113 | if any finished hook blocks, the combined answer blocks with every reason |
| `HookCombine.NoBlockIsInvented` | ah-engine/parity/dispatch-lib.js:107-118 | if none blocks, neither an answer passed on nor one joined from several hooks blocks |
| `HookCombine.NeutralHooksDoNotCount` | ah-engine/parity/dispatch-lib.js:114-115 | timed-out and silent hooks make no difference |
| `HookDelivery.SilenceIsSilence` | ah-engine/parity/dispatch-lib.js:113-114 | when no hook spoke the answer is exit 0 with nothing printed |
| `HookDelivery.LoneIsPassedOn` | ah-engine/parity/dispatch-lib.js:113-116 | the answer of the one hook that spoke is passed on, its output tidied if it exited 0 |
| `HookDelivery.SeveralAreMerged` | ah-engine/parity/dispatch-lib.js:113-116 | the answers of several that spoke are the strict merge of them in hook order, tidied; a conflict is told |
| `HookDelivery.TidyTakesLittle` | ah-engine/parity/dispatch-lib.js:78-85 | tidying takes an empty context, the table it leaves bare and the object it leaves empty, and no other field |
| `HookDelivery.BlockedIs` | ah-engine/parity/dispatch-lib.js:93-106 | what several blocks become: exit 2 just when one exits 2; the plain texts and notes, or the first object that blocks with all reasons and messages and nothing else of it changed; and which stderr |
| `HookCombine.LenientKeepsFirst` | ah-engine/parity/dispatch-lib.js:119-124 | the lenient merge keeps the first value of a field, at the top or nested |
| `HookCombine.SequentialNeverConflicts` | ah-engine/parity/dispatch-lib.js:172-184 | the lenient merge of the objects never conflicts |
| `HookSequential.SequentialBlocksExactly` | ah-engine/parity/dispatch-lib.js:172-187 | the sequential answer blocks if and only if a hook that exited 0 denies or the first top-level decision among them is a block: no denial of theirs is lost, and a top-level block just when another decision comes first |
| `HookSequential.SequentialInventsNoBlock` | ah-engine/parity/dispatch-lib.js:172-187 | where no hook blocked, the sequential answer does not block |
| `HookSequential.BlockAfterApprovalIsLost` | ah-engine/parity/dispatch-lib.js:172-187 | an approval before a block: the combined answer blocks and the sequential one does not |
| `SequentialDelivery.TextsAlone` | ah-engine/parity/dispatch-lib.js:172-181 | the sequential delivery where no hook printed an object: the plain texts in hook order, each as whole lines, and every finished hook's stderr |
| `SequentialDelivery.TextsBeside` | ah-engine/parity/dispatch-lib.js:172-184 | where plain text is no context: the objects merged leniently, or the one tidied, the plain texts on stderr after it |
| `SequentialDelivery.TextsAmong` | ah-engine/parity/dispatch-lib.js:176-184 | where it is: each plain text is merged as an object of its own in its place, its context the text without its last newlines, and nothing of it goes to stderr |
| `EventScan.RunStringEnd` | ah-engine/src/client.rs:929-944 | the loop over escapes finds the specified end of a string |
| `EventScan.RunSkipValue` | ah-engine/src/client.rs:946-964 | the loop over brackets and strings finds the specified end of a value |
| `EventScan.RunEventOfPrefix` | ah-engine/src/client.rs:970-1019 | the whole scan terminates and gives the specified event |
| `ScanLaws.DecodeQuote` | ah-engine/src/client.rs:988-991 | reading a serialized string back gives the string |
| `ScanLaws.SkipValue` | ah-engine/src/client.rs:946-964 | over the serialization of any value, however nested, the skip ends exactly at its end, or finds none when the text is cut within it |
| `ScanLaws.EventOfCutDocument` | ah-engine/src/client.rs:966-1019 | for every prefix of the serialization of an object the event is the first preferred key among the complete top-level string fields, up to an event key of another kind |
| `ScanLaws.CutAgreesExactly` | ah-engine/src/client.rs:913-919 | when event keys hold strings, the scan of a cut payload answers what a parse answers for the object of its complete fields if and only if the first and the last of them with the preferred key hold the same text |
| `ScanLaws.CutAgreesWithParse` | ah-engine/src/client.rs:913-919 | so it does whenever no event key stands twice |
| `ScanLaws.RepeatedKeyIsReadOnce` | ah-engine/src/client.rs:966-1019 | an event key given twice: the scan answers the first text where a parse keeps the second |
| `SpacedScan.EventOfSpacedPayload` | ah-engine/src/client.rs:966-1019 | for every prefix of a payload with any white space the event is the first preferred key among the complete string fields, up to an event key of another kind or one whose value is followed by white space before a comma |
| `SpacedEvents.AllFoundExactly` | ah-engine/src/client.rs:1003-1015 | of a payload with any white space, cut anywhere, the scan collects every complete event field if and only if none comes after one whose value is followed by white space |
| `SpacedEvents.EventIsBestExactly` | ah-engine/src/client.rs:966-1019 | for every such payload whose event keys hold strings and every cut, the event answered is the most preferred of the complete event fields if and only if no field hidden by white space is preferred to all those reached, up to equal text |
| `SpacedEvents.EventIsParsedExactly` | ah-engine/src/client.rs:913-919 | and it is the event a parse of the complete fields answers if and only if the preferred key is reached with its first text its last, or what is answered in its stead is that text |
| `SpacedEvents.SpaceHidesEvent` | ah-engine/src/client.rs:1003-1015 | a space between an event field and the comma before a preferred one: the scan answers the wrong event |
| `SlowStreak.Client.SlowReply` | ah-engine/src/client.rs:409-427 | a slow reply reads, counts and rewrites the streak as specified |
| `SlowStreak.TripsAreDue` | ah-engine/src/client.rs:406-427 | a trip means as many slow replies in a row, since any trip before, within the window, whatever the clock reads |
| `SlowStreak.StraddleIsMissed` | ah-engine/src/client.rs:417-420 | with three or more to a streak, one that straddles the end of an earlier window does not trip |
| `SlowStreak.BackwardIsMissed` | ah-engine/src/client.rs:417-420 | with a clock that goes back, a streak of three or more is missed under every window |
| `SlowStreak.TripsExactlyInTime` | ah-engine/src/client.rs:406-427 | trips and due streaks coincide over all runs whose clock does not go back exactly if a streak takes at most two replies or the window is empty |
| `SlowStreak.TripsExactly` | ah-engine/src/client.rs:406-427 | over all runs, whatever the clock reads, they coincide exactly if a streak takes at most two replies |
| `Followups.Store.RunAdd` | ah-engine/src/actlog.rs:102-114 | adding ignores a duplicate, appends, and drops the oldest past the cap, logging each |
| `Followups.Store.RunDone` | ah-engine/src/actlog.rs:123-137 | a follow-up is postponed in place, or removed and logged |
| `Followups.Store.RunDue` | ah-engine/src/actlog.rs:117-119 | exactly the due follow-ups, in order |
| `Followups.LedgerConserves` | ah-engine/src/actlog.rs:102-137 | over any run no two pending follow-ups share action and target, the cap holds, and what was accepted is what is pending, dropped and finished |
| `Followups.OldestGoFirst` | ah-engine/src/actlog.rs:108-113 | what stays pending after a drop is the newest |
| `Followups.LogCountsCalls` | ah-engine/src/actlog.rs:109-134 | the log counts drops and finish calls, a finish of nothing pending included |
| `Followups.PostponeMovesDue` | ah-engine/src/actlog.rs:117-130 | a postponed follow-up is due again exactly from its new time on, the others as before |
| `Followups.FinishIsLogged` | ah-engine/src/actlog.rs:123-136 | over any run every finish stands in the log from its moment on: when, what it was and how it ended |
| `Followups.DropIsLogged` | ah-engine/src/actlog.rs:109-113 | and every follow-up dropped for want of room, the oldest first, as expired |
| `Followups.OnlyItsKeyGoes` | ah-engine/src/actlog.rs:131-132 | a finish takes out just the follow-ups of its action and target |
| `Followups.OthersAreLeft` | ah-engine/src/actlog.rs:131-132 | and leaves the others in order |
| `Followups.DueKeepsOrder` | ah-engine/src/actlog.rs:117-119 | what is due is just what is pending and has come to its time, in the order pending |
| `ActionReport.RunReport` | ah-engine/src/actlog.rs:207-262 | the loop over the lines collects the specified counters |
| `ActionReport.ReportAdds` | ah-engine/src/actlog.rs:161-262 | the report of two logs end to end is the sum of their reports, in either order |
| `ActionReport.CountsAddUp` | ah-engine/src/actlog.rs:224-238 | a feature's outcomes are the sums of its outcomes by action |
| `ActionReport.CountersAreOfLines` | ah-engine/src/actlog.rs:213-260 | every counter counts exactly the counted lines of its feature and kind |
| `ActionReport.MistakesAreOfLines` | ah-engine/src/actlog.rs:241-246 | the mistakes are the distinct actions and targets of the mistake lines |
| `ReportLatencies.LatenciesAreOfLines` | ah-engine/src/actlog.rs:234-238 | the latency sum, count and maximum of a feature are those of its counted actions that have one |
| `Budget.AnswersAreEdges` | ah-engine/src/budget.rs:118-177 | an answer names a breach or shedding that began or ended, exactly when one did |
| `Budget.State.RunCpuWindow` | ah-engine/src/budget.rs:139-146 | a CPU window updates the state as specified |
| `Budget.State.RunHardWindow` | ah-engine/src/budget.rs:151-171 | a hard-limit window updates the state as specified |
| `Budget.BudgetsFollowHistory` | ah-engine/src/budget.rs:122-177 | over any run the CPU budget is breached exactly when as many last windows reach the limit, memory when the last sample is over, and breaches count the times either began |
| `Budget.LastIsShown` | ah-engine/src/budget.rs:139-177 | beside the breaches the last window, sample and hard limit are shown |
| `Budget.SheddingFollowsHistory` | ah-engine/src/budget.rs:151-171 | shedding is on exactly when a full hard run occurred and every window since stayed at the recovery level (soft at most hard) |
| `Budget.SheddingIsExact` | ah-engine/src/budget.rs:151-171 | that holds of every run exactly if the soft level is at most the hard one, or there is no hard one |
| `JsLiteral.Reader.Ws` | tools/site_gen.py:56-71 | the loop over white space and comments moves to the specified position |
| `JsLiteral.Reader.ReadValue` | tools/site_gen.py:73-96 | the moving-position reader gives the specified value and end |
| `JsLiteral.Reader.ReadArray` | tools/site_gen.py:127-140 | the loop over items gives the specified array |
| `JsLiteral.Reader.ReadObject` | tools/site_gen.py:142-167 | the loop over fields gives the specified object |
| `JsLiteralLaws.NumberEndHere` | tools/site_gen.py:45 | a number in place is matched to its end |
| `JsNumbers.NumbersExactly` | tools/site_gen.py:45 | a text is matched as a number to its end if and only if it is a sign, a whole part, a fraction and an exponent, each well written |
| `JsLiteralLaws.WrittenIsRead` | tools/site_gen.py:41-167 | every writing of a literal, with any white space, comments and trailing commas, is read as the literal up to exactly its end: true, false, null, undefined, each escape and the digits of a number have their values written out |

## Left out

- The operations Block, Sched, Metrics and Telemetry of the store: single-table inserts and updates with no law across operations.
- Archiving and pruning of mail, expired keys, impact events and old write ids: with write ids pruned, exactly-once holds only within their retention.
- The time windows of batching, acknowledgement timeouts and writer panics; a client that stopped waiting may still have its job committed.
- The bus notifications and the byte budget, age order and expiry of the memory layer: eviction removes any items at any time.
- The suffix of temporary names, a setting: it is the shipped `.tmp`, also for writes made before settings can be read.
- SQLite's log, sync levels and the SQL text; a commit is one atomic step.
- Power loss: a kill keeps what the file system was told, so what `skip_sync` risks is not modelled.
- The bytes around a merged answer (order of fields, spacing), and plain texts that only together form an object: answers are compared as fields.
- `overCap`, `select`, `matches` and `runHook` of the hook library, which choose and run hooks.
- The acknowledgement exchange of the client, a bounded resend loop around sockets: the daemon's side is not part of this model.
- A cut inside a multi-byte character, which the client first turns into a replacement character.
- Which of several shape errors is reported first; the two are one refusal here.
- Parsing of TOML and JSON files, and of a file's environment settings; values come in as parsed.
- Percentages are reals without a not-a-number value, and limits are compared exactly.
- The rates and averages of the report, which round; the log's size limit and torn lines, which are skipped before the report sees them.
- Reading a literal number's text as an integer or a float; the value keeps its text without underscores.
- HotTables.Conn.RunRt: on a storage error says nothing of the tables, because the savepoint then restores them.
- Reload.ConfigStore.Reload: runs one reload at a time; two at once, which the original's locks order only in part, are not modelled.
- StateFiles.NoTempOfEndedRequest: assumes that removals succeed and no process is killed, as a leftover of either is swept later.
- MergeLaws.GroupsMergeAlike: is stated for results whose merged fields have the types the hooks' protocol gives them; `StandingAnswers.PrintedStandsExactly` says for which it fails.
- HookCombine.NoBlockIsInvented: is stated for objects in which no key stands twice, as every parsed one is.
- StoreCaps.KeyCapExactly: is stated for caps of at least one project and one key.
- ScanLaws.EventOfCutDocument: is stated of the compact serialization; `SpacedScan.EventOfSpacedPayload` covers any white space.
- SpacedScan.EventOfSpacedPayload: takes a nested value as any text of literals and balanced brackets, and writes strings in their shortest escapes.
- ScanLaws.CutAgreesWithParse: is stated for payloads whose event keys hold strings, each once; the scan stops at one that does not, and `ScanLaws.CutAgreesExactly` covers repeated ones.
- SpacedEvents.EventIsParsedExactly: is stated for payloads whose event keys hold strings.
- HookSequential.SequentialBlocksExactly: is stated for objects in which no key stands twice, as every parsed one is.
- StoreReads.GetAcknowledged: is stated for clock readings below 2^63 and runs of faithful batches.
- JsLiteralLaws.WrittenIsRead: is stated for base-16 reading that gets hexadecimal digits right, and reads nothing after the value.
- HookAnswers.DecisionPrevails: is stated for results whose merged fields have their types and objects in which no key stands twice; so are `HookAnswers.TextsAreJoined` and `HookAnswers.FieldsAreGiven`.
- StateFileProgress.StagedWriteLands: is stated of a thread with no other write staged; `StateFileOrder.LandsInOrder` and `Deadline.Worker.CommitStaged` cover several.
- SettingTexts.NumberFromText: names the number for bounds that are in order; `Settings.ClampIsInRange` says what clamping gives when they are not.
