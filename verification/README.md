# A verified model of the versioned store engine

The engine keeps a database whose definition is a hash-chained, versioned commit
log. Everything else it stores is a second form of that log: the family tables
(updated incrementally), checkpoints (a folded prefix), the retained suffix after
history compaction, the mirror outbox, cached counts and the chain head, and, while
a staging session is engaged, an overlay of buffered writes. About a dozen code
paths mutate these forms. This project models all of them and proves that every
one stays equal to one simple fold.

`dafny verify dfyconfig.toml` checks the whole project.

## How the model is built

* The durable contents of one database file are one value, `Stores.Storage`. A
  storage transaction is one atomic step: the imperative code changes a working copy
  (`Transactions.Transaction`) and publishes it at once, and a crash falls only
  between publications. A write that maintains its history publishes up to three times;
  `Runs.CommitOnly` is its first publication alone, and `Runs.WriteCrashIsReached` proves
  that every state a crash inside a write can find is a state of a run.
* Each operation has a specification function over `Storage` (`Writes.Perform`,
  `Histories.WriteCheckpoint`, `Retention.CompactHistory`, `Staging.Materialize`,
  `Recovery.Resume`, `Imports.ApplyImport`, ...). `Engines.Engine` is the engine as the
  source writes it: an object with the store, the in-memory catalog and the session,
  whose methods loop over operations, entries and rows and update fields in place.
  Every method is proved to leave exactly the state, result and announced changes its
  specification function gives. The theorems are lemmas about those functions.
* `Runs.System` adds the whole history of appended entries to a running engine, and
  `Runs.Next` is one step of it: direct, batch, identified and atomic writes,
  registration and evolution, checkpoint, compaction, rebuild, acknowledgement, the
  staging seam, the compaction machine with its fault points, a write cut short after
  its commit, and reopening after a crash. `Runs.RunOk` proves the invariant of every run.
* Rows of both logs and of the outbox are kept in key order. An append of a row
  numbered past all others is `+ [row]`; the methods that write rows by key are proved
  to be that append while the store is ordered (`Transactions.Ordered`), which every
  sound store is (`Transactions.SoundIsOrdered`).

### Modules

| layer | modules |
|---|---|
| values, byte streams | ByteStrings, Errors, Versioning, Streams, Hashing |
| the fold, checkpoints, catalog | CanonicalViews, ViewFolding, Checkpoints, Catalogs |
| the store and its invariant | Stores, Invariants, Histories, Retention |
| write paths | Writes, WriteLaws, Evolution, Declarations, Rebuilding, Reports |
| staging and recovery | Staging, StagingLaws, StagingExactness, StagingSafety, Recovery, Openings, Receipts |
| restore | Imports, Bindings |
| whole histories and runs | Ledgers, Lifetimes, LogSlots, Runs, Steps, Reopenings, Restores, Continuations, Reclamation, Witnesses |
| the engine in place | Transactions, Sessions, Engines |

### What is assumed, and where

The source relies on some conditions it does not fully enforce. They are hypotheses
here, never axioms, and where one can fail the failure is a lemma.

* Domain tables are written with domain keys (`Writes.Disciplined`).
  `WriteLaws.DisciplineIsExact` proves that this is exactly what keeps tables and log
  equal.
* One family version names one table over the whole history (`Invariants.World`).
  `Evolution.EvolutionSkipsBindingCheck` proves when the evolution path keeps it,
  `Evolution.SharedVersionBreaksTheView` what breaks otherwise, and
  `Witnesses.SharedVersionWitness` is a store on which it breaks.
* The component's directory sends each row to its own table and key kind, and records
  survive encoding: record values are identified with their encoded bytes.
* One sequential owner; 64-bit counters stay below their maximum.
* The hash is an uninterpreted parameter. Nothing assumes it injective: a theorem that
  needs it says which digests must differ (`Retention.Collisionless`, asked of a run only
  where a checkpoint is cut), or returns two distinct byte streams that share a hash
  (`Streams.HeadBindsLog`).
* Runs start from a new store with versioning on (`Runs.Created`).
* No family with an empty table evolves while a group or session still in place writes
  that table (`Runs.Untouched`); `Witnesses.ParkedAcrossEvolutionWitness` is a store on
  which one does. Every other evolution beside a parked group or an engaged session is
  part of a run, one whose maintenance fails together with the restart that follows it.

### Where code and documentation disagree

The model follows the code.

* ARCHITECTURE.md:546 says that after an import new writes continue the imported
  digest chain. With an empty suffix they do not: `Imports.EmptySuffixBreaksChain`.
* src/engine.rs:247-249 says that a failed evolution keeps memory equal to disk. When
  the maintenance after the write fails, it does not, and
  `Lifetimes.EvolutionVerdict` proves exactly when that is.
* src/compaction.rs and src/engine.rs:128-135 promise idempotent recovery. It is exact
  up to the order in which the checkpoint names the inventory, and
  `Reopenings.EveryCrashScheduleEndsAlike` proves exactly when it is exact.
* A checkpoint artifact and a non-empty suffix do not always restore the source
  (src/engine.rs:1989-2096): `Restores.ReachableImportRestores`.
* src/engine.rs:2141-2144 calls a versioned store with nothing unshipped fully
  server-confirmed. A local store ships nothing and reports so too:
  `Ledgers.StoreDurabilityMeaning`.

## Model

| member | source | states |
|---|---|---|
| Runs.RunOk | src/engine.rs:74-110 | every run of legal steps, in any order and with crashes anywhere, keeps the store invariant, the ledger of its whole history, and what the parked group and the open session rely on |
| Runs.LogIsTheStore | src/fold.rs:184-227 | in every reachable state the fold of the whole history, the fold of the latest checkpoint's rows and the retained suffix, and the family tables hold the same rows, with the same view digest |
| Runs.SlotsEqualRecomputation | src/commit_log.rs:149-192 | in every reachable state the counts are the log lengths, every retained commit has its versioned entry, and the head slot is the digest of the last entry ever appended, also after the whole log is compacted |
| Runs.CheckpointAlwaysLoads | src/engine.rs:1699-1722 | in every reachable state the latest checkpoint loads, passes every content-address check, and covers a prefix that ends inside the log |
| Runs.CheckpointCoversHistory | src/checkpoint.rs:338-461 | in every reachable state the latest checkpoint covers the history from its first entry through its last, with that entry's snapshot and digest, the store's name and the hash of its own inventory, and stored checkpoints are numbered and name one another |
| Runs.NoIdentifierTwice | src/engine.rs:381-448 | no record identifier is committed twice in a table by any path, and every durable counter stands above every identifier ever committed |
| Runs.MirrorNeverLoses | src/outbox.rs:148-180 | in every reachable state of a mirrored store the outbox is the retained log row for row, and the unshipped suffix is exactly the history past the cursor |
| Runs.StepAdvances | src/outbox.rs:214-243 | a step only extends the history, never lowers the commit sequence, never moves the shipped cursor back, and keeps the policy |
| Runs.ParkedGroupFailsClosed | src/engine.rs:2381-2442 | a parked group later in a run is accepted if and only if nothing was committed since it was parked; otherwise it is refused and nothing changes, by sequence numbers alone |
| Runs.EngagedSessionFailsClosed | src/engine.rs:2302-2332 | an engaged session parks if and only if nothing was committed since it was engaged; otherwise the store is unchanged |
| Runs.DiscardedBuildLeavesNoTrace | src/engine.rs:2337-2341 | a build that is abandoned, or parked and then discarded, whatever was issued in it, leaves the whole system as it was |
| Runs.StepOk | src/engine.rs:381-1128 | each legal step keeps the run invariant, a commit without its maintenance whatever the hash |
| Runs.WriteCrashIsReached | src/engine.rs:1730-1833 | every durable state between a write's commit and the end of its maintenance, the commit alone or with the checkpoint the maintenance cuts, is a state of a legal run |
| Steps.GroupStepWrites | src/atomic.rs:308-367 | a heterogeneous group that passes validation adds one history entry, numbered next, holding exactly its writes under the registered families; any other changes nothing |
| Steps.CallStepWrites | src/engine.rs:381-922 | so does a direct call, an identified assert with the next identifier |
| Steps.EngagedCallWrites | src/engine.rs:2270-2300 | a call issued to a session in place moves the session alone, so that store and session together stand for what a direct call would have left |
| Steps.AcknowledgeStepMoves | src/engine.rs:2120-2127 | an acknowledged head becomes the cursor if and only if it names a retained entry past the cursor; nothing else of the system moves |
| Steps.BeginStepEngages | src/engine.rs:2152-2300 | a session is engaged, empty and over the store's cursors, exactly when none is and nothing is parked, a plan's only with no compaction pending |
| Steps.ParkStepParks | src/engine.rs:2302-2332 | a session ends by parking its entries and pre-images exactly when it has entries and nothing was committed since it was engaged |
| Steps.ParkPlanStepParks | src/engine.rs:2162-2188 | so does a plan, together with its intent, even if the interruption after it strikes |
| Steps.ParkVerdict | src/engine.rs:2614-2638 | on any store, damaged or not, a park is accepted exactly when the head, both counters and every identifier minted from stand where the session found them and nothing is parked, a plan also with no compaction pending; an interruption armed for it strikes once, after both are written |
| Steps.AcknowledgeVerdict | src/outbox.rs:214-243 | on any store, a head is unknown exactly when the outbox lacks its sequence, and accepted only if outbox and log both hold that sequence with that digest |
| CanonicalViews.FoldMeaning | src/fold.rs:184-258 | a fold succeeds exactly when the chain links and every operation is applicable, and its rows are the last-write rows |
| CanonicalViews.FoldConcat | src/fold.rs:193-212 | folding a concatenation is folding the prefix, then the suffix from the prefix's head |
| CanonicalViews.CheckpointIsTransparent | src/fold.rs:184-227 | folding a prefix, keeping only its rows and folding any suffix on them succeeds exactly when the whole fold does, with the same rows |
| CanonicalViews.RowsRestoreView | src/fold.rs:278-308 | the rows of a view fold back to the same last-write rows |
| CanonicalViews.FoldSelfDescribing | src/fold.rs:311-330 | every fold names the identity of each key it touched, so listing its rows never falls back on the catalog and never fails |
| CanonicalViews.FirstIdentityStands | src/fold.rs:170-174 | a fold records for each family version the first identity its checkpoint rows and then its entries name, and none for a version they do not name |
| ViewFolding.CanonicalView.ApplyRow | src/fold.rs:216-227 | applying a checkpoint row in place computes the row step of the fold; a refused row changes nothing |
| ViewFolding.CanonicalView.Apply | src/fold.rs:229-258 | applying an operation in place computes the operation step of the fold, with its four refusals |
| ViewFolding.FoldLog | src/fold.rs:184-214 | the looping fold returns exactly the fold's view or its first error |
| ViewFolding.Materializable | src/fold.rs:278-308 | the pushed rows are the view's live rows and the tombstones of keys touched but not kept, in view order |
| Streams.EntryDecodable | src/versioning.rs:379-412 | equal entry digest streams come from entries equal in store name, schema hash, sequence, snapshot, predecessor and every operation, key kind included |
| Streams.HeadBindsLog | src/fold.rs:193-212 | two accepted logs with one last digest are one log, or an entry of each is returned whose distinct streams share a hash |
| Streams.SchemaStreamIdentifiesInventory | src/versioning.rs:237-262 | two inventories feed one schema stream if and only if they name the same (family, schema hash) pairs with the same multiplicity |
| Streams.SchemaHashBindsInventory | src/versioning.rs:237-262 | one store schema hash means the same pairs, or two distinct streams that share a hash; the same pairs in any order give one hash |
| Streams.ViewStreamIdentifiesRows | src/fold.rs:260-272 | two views feed one digest stream if and only if their rows are equal |
| Streams.SegmentDecodable | src/checkpoint.rs:301-309 | equal segment streams come from equal segments |
| Streams.DigestBindsSegment | src/checkpoint.rs:301-315 | two segments of one digest are one segment, or distinct streams share a hash |
| Streams.MetadataDecodable | src/checkpoint.rs:434-461 | equal checkpoint streams come from metadata equal in every covered field |
| Hashing.Hasher.UpdateOperation | src/versioning.rs:508-521 | the hasher is fed exactly the operation's stream |
| Hashing.DigestEntry | src/versioning.rs:379-407 | feeding the fields of an entry one by one yields the hash of its stream |
| Hashing.DigestView | src/fold.rs:260-272 | feeding a view's rows in view order yields the hash of its stream |
| ByteStrings.DecimalInjective | src/record.rs:88-96 | distinct identifiers have distinct canonical texts |
| Checkpoints.ChunkIsOptimal | src/checkpoint.rs:318-335 | the segments concatenate to the rows, each is a single row or holds at most one mebibyte of payloads and keys, counted from the rows' fields, and no contiguous partition with those limits has fewer segments |
| Checkpoints.ChunkIsGreedy | src/checkpoint.rs:318-335 | of any two adjacent segments the first, with the row that opens the second, would hold more than one mebibyte |
| Checkpoints.ChunkSegments | src/checkpoint.rs:318-335 | the greedy loop computes that partition, within those limits and filled to them |
| Checkpoints.VerifyCheckpoint | src/checkpoint.rs:501-545 | the looping verification returns the first failing content address, in the order of the checks |
| Bindings.VerifiedMeansAddressed | src/checkpoint.rs:501-545 | a checkpoint verifies if and only if its own digest, every segment's digest and the digest of the last payloads of its rows are those it names |
| Bindings.CheckpointDigestBinds | src/checkpoint.rs:501-545 | two checkpoints that verify under one digest are one checkpoint, payload included, or two distinct streams that share a hash are returned |
| Checkpoints.CutCheckpointVerifies | src/engine.rs:1614-1693 | a checkpoint cut from any view verifies and holds exactly its rows, as many as its references count |
| Histories.SegmentsLoadBack | src/engine.rs:1699-1722 | stored segments load back unchanged if and only if no two different ones share a digest |
| Histories.CheckpointPreserves | src/engine.rs:1614-1693 | a checkpoint changes no row, keeps the invariant, and is readable afterwards exactly when its segments do not collide |
| Histories.TrimPreserves | src/engine.rs:1785-1827 | removing covered history keeps the whole view, re-roots the checkpoint, and leaves exactly the segments it references |
| Reclamation.CompactReclaims | src/engine.rs:1730-1833 | a compaction orphans no segment, and one that had something to do and succeeded leaves one checkpoint, naming no predecessor, and exactly the segments it references |
| Reclamation.SegmentsAreReferenced | src/engine.rs:1785-1827 | in every reachable state the stored segments are exactly those the stored checkpoints reference, and any step that drops entries from the log leaves exactly the latest checkpoint's |
| Receipts.CompactReports | src/engine.rs:1730-1833 | a compaction that succeeds reports what left the log, what stays in it and the checkpoint the store now starts from; within the budget it changes nothing |
| Receipts.CompactionVerdict | src/engine.rs:1730-1833 | with no session engaged a compaction succeeds if and only if the acknowledgement is of the store's kind and the log is within the budget, or the store local, or both the acknowledgement and the shipped cursor reach the last entry |
| Retention.UnshippedIsSuffix | src/outbox.rs:148-160 | the unshipped rows are exactly the versioned entries past the cursor |
| Retention.AcknowledgeMeaning | src/outbox.rs:214-243 | a mirrored store accepts exactly the heads of its retained entries, the cursor moves forward or not at all, and nothing else changes |
| Receipts.AcknowledgeReports | src/outbox.rs:214-243 | an accepted acknowledgement reports the head it advanced to, or the cursor it found at or past that head |
| Retention.SmallViewsNeverCollide | src/checkpoint.rs:318-335 | rows within one segment's budget satisfy the collision hypothesis under any hash |
| Retention.CompactPreserves | src/engine.rs:1730-1833 | compaction, accepted or refused, keeps the invariant, the view and every slot outside the history planes |
| Retention.MaintainPreserves | src/engine.rs:1839-1877 | the maintenance after a write does too |
| Retention.CompactionKeepsUnshipped | src/engine.rs:1760-1827 | compaction of a mirrored store never removes an unshipped outbox row and never moves the cursor |
| Ledgers.UnshippedIsHistoryPastCursor | src/outbox.rs:148-160 | the unshipped suffix is the whole history past the cursor, not only what happens to be retained |
| Ledgers.DurabilityMeaning | src/outbox.rs:249-262 | durability is unknown exactly outside the retained log, confirmed exactly up to the cursor, queued past it |
| Ledgers.StoreDurabilityMeaning | src/engine.rs:2141-2150 | a mirrored store as a whole is confirmed exactly when its cursor is at its last entry, and then every retained commit is, and otherwise its last one is queued; a local store reports itself confirmed although each of its commits reports local |
| Ledgers.WholeHistoryIsTheView | src/fold.rs:184-227 | the fold of every entry ever appended equals the view over the latest checkpoint and the tables |
| Ledgers.IdentifiersNeverRepeat | src/engine.rs:2449-2508 | identifiers in the history ascend per table and lie below the durable counter |
| Ledgers.AppendLedger | src/commit_log.rs:166-192 | an accepted entry extends the history, both logs, the outbox and the counters together |
| Ledgers.CompactLedger | src/commit_log.rs:195-229 | compaction keeps both retained logs a suffix of the history |
| Invariants.AppendPreserves | src/engine.rs:3765-3787 | appending an entry of current operations keeps the invariant |
| Invariants.AgreesOperations | src/fold.rs:229-258 | applying operations to tables and to view rows keeps them the same rows |
| Writes.DirectPreserves | src/engine.rs:631-922 | every disciplined direct call keeps the invariant, and a refused one changes nothing |
| Writes.AtomicPreserves | src/atomic.rs:308-367 | so does a heterogeneous group |
| Writes.DirectIsAppend | src/engine.rs:381-1128 | the commit of any disciplined direct call is the append of its entry |
| Reports.GroupReports | src/atomic.rs:308-367 | an accepted group is one commit of exactly its writes in both logs, its receipt carries that commit's own sequence and snapshot and the number of writes, and its deltas are the writes in order at that snapshot, with the rows its retractions removed |
| Reports.DomainCallReports | src/engine.rs:631-922 | so is an accepted single or batch call, whose receipt names its table, and its key if it is single |
| Reports.IdentifiedCallReports | src/engine.rs:381-629 | an identified call is accepted if and only if its table is registered and holds the row it changes or removes; it is one commit under the identifier its receipt names, moves only that row, and announces nothing |
| Reports.PerformReports | src/engine.rs:820-830 | with its maintenance, a call announces what its commit did and an accepted one names the cursors the store holds; maintenance shows only in history |
| Reports.PerformVerdict | src/engine.rs:1839-1877 | a validated domain call is refused after its commit if and only if the store is mirrored and its log has reached the live budget |
| Reports.PerformAtomicVerdict | src/atomic.rs:308-367 | a group is accepted if and only if its writes validate and the store is not blocked at the sequence an engaged session reports |
| WriteLaws.CommitIsSinglesInAnyOrder | src/engine.rs:925-1128 | an accepted multi-operation commit leaves the tables its operations leave as single writes in any order, each of which is accepted |
| WriteLaws.AcceptedMeaning | src/atomic.rs:308-335 | a list of writes is accepted if and only if each passes on the pre-state and no slot is written twice |
| WriteLaws.DisciplineIsExact | src/fold.rs:443-512 | an accepted keyed write keeps tables and log equal if and only if its key is a domain key |
| Evolution.PersistPreserves | src/engine.rs:230-356 | landing an evolution in one write keeps the invariant: rows, log and catalog move to the new identity together |
| Declarations.EvolutionConverts | src/engine.rs:230-356 | a declaration that steps from what its table bears rewrites every row of the table by the first prior declared at the stored schema hash and no other slot, whether or not its maintenance succeeds; if one row does not convert it is refused and nothing changes |
| Declarations.DeclarationVerdict | src/engine.rs:176-205 | a declaration is accepted if and only if the table is unbound and no table bears its family version, or the table already bears it, or a prior of the same family is declared at the stored hash, every row converts, and the store is not blocked when there are rows |
| Declarations.UndeclaredIsRefused | src/table.rs:275-285 | with no such prior a declaration of another identity is refused with the mismatch and nothing changes |
| Declarations.IdentifiedVerdict | src/engine.rs:358-379 | an identified table never evolves: its declaration is accepted if and only if the table bears exactly that identity, or it is unbound as its version is everywhere, and only then is it bound and its counter started |
| Evolution.EvolutionTables | src/engine.rs:281-314 | retracting every row under the old identity and asserting it under the new leaves exactly the rows rewritten in place |
| Evolution.EvolutionSkipsBindingCheck | src/engine.rs:176-205 | once a declaration is accepted, the store has one table per family version if and only if no other table bore the declared version, and a new registration always does |
| Evolution.SharedVersionBreaksTheView | src/engine.rs:196-205 | registered tables are the rows of some view if and only if no two rows share a view key with different payloads, which one table per version rules out |
| Witnesses.SharedVersionWitness | src/engine.rs:196-205 | a store on which an accepted evolution binds a second table to a bound version, after which no view agrees with the tables |
| Lifetimes.EvolutionVerdict | src/engine.rs:230-356 | evolving a family with rows is accepted, and leaves memory equal to disk, if and only if the store is not blocked; with no session engaged that means a mirrored store whose retained log has reached its live budget |
| Lifetimes.MaintainVerdict | src/engine.rs:1839-1868 | the maintenance after any fresh commit fails if and only if the store is blocked |
| Witnesses.FailedMaintenanceWitness | src/engine.rs:247-258 | a mirrored store whose evolution reports an error with the table bound to the new identity on disk and to the old one in memory |
| Evolution.NewPreserves | src/engine.rs:176-205 | a first registration keeps the invariant |
| Lifetimes.NewSound | src/engine.rs:358-379 | a first registration, domain or identified, keeps the invariant, the ledger of the whole history and every counter's meaning, though it starts the table's counter at one |
| Rebuilding.RebuildIsExact | src/fold.rs:278-351 | from any starting tables every live row ends at its payload, every other touched key is empty, and untouched keys are unchanged, across family evolution |
| Rebuilding.RebuildRestores | src/engine.rs:1941-1974 | a rebuild of a complete store succeeds and restores its tables whatever happened to the rows the log touched |
| Receipts.RebuildReports | src/engine.rs:1941-1974 | a rebuild reports the rows of the view, the touched keys it cleared, the entries past the checkpoint, and the digest of the view |
| StagingExactness.StagingIsExact | src/engine.rs:2270-2556 | for any call sequence that keeps the key discipline, staging, parking and materializing gives the results and the whole store of the same calls made directly if and only if none of those direct calls compacts history |
| StagingLaws.StageParkMaterialize | src/engine.rs:2270-2556 | as long as no direct call compacts history, it also delivers the same domain deltas and receipts naming the same head |
| StagingLaws.BuildIsPerform | src/engine.rs:2638-2981 | call by call an engaged session answers as the store would and buffers the entries the store would append, up to the first call that compacts |
| StagingLaws.IdentifiedUntriggered | src/engine.rs:439-447 | identified calls never compact, whatever the budget, so sequences of them always stage exactly |
| StagingLaws.SessionReadsShadow | src/engine.rs:2987-3037 | presence and pre-images read through the session are those of the tables direct writes would have left |
| StagingLaws.StagedAnnounces | src/engine.rs:2509-2549 | materializing announces what the direct calls deliver for domain tables, retract pre-images included |
| StagingLaws.MaterializeIsAppend | src/engine.rs:2381-2508 | materializing a group in place is appending its entries and clearing the slot |
| Receipts.GroupReceipts | src/engine.rs:2302-2577 | one parked group, three receipts: the park names the commits it will be, a materialize answers with the same digest and size and the cursors it leaves, a discard with the same digest and size, leaving the store as before the park |
| Receipts.BeginVerdict | src/engine.rs:2152-2300 | a session begins only on a versioned store with no session open and nothing parked, a compaction plan only with no compaction pending besides |
| StagingLaws.LastWins | src/staging.rs:582-603 | the last buffered effect on a key is what the tables would hold |
| StagingLaws.OverlayTracksAll | src/staging.rs:535-556 | the presence map agrees with the last buffered effect on every key |
| StagingSafety.EngagedTextsAreShadow | src/engine.rs:3039-3094 | an engaged read of a domain table returns the rows direct writes would have left |
| StagingSafety.EngagedNumbersAreShadow | src/engine.rs:3096-3162 | an engaged read of an identified table does too |
| StagingSafety.MovedStoreRefusesGroup | src/engine.rs:2396-2415 | a store whose sequence moved refuses the parked group and changes nothing, with no assumption on the hash |
| StagingSafety.ParkedAcrossEvolution | src/engine.rs:2614-2636 | materializing a group parked before an empty family evolved keeps tables and log equal if and only if the group leaves no row in that table |
| Witnesses.ParkedAcrossEvolutionWitness | src/engine.rs:2614-2636 | a store that accepts a group parked before its empty family evolved, and then satisfies the invariant in no world |
| StagingSafety.EmptyEvolutionKeepsGroup | src/engine.rs:2614-2636 | evolving an empty family moves nothing the base check reads, so the parked group is still accepted |
| Reopenings.CompactionIsAllOrNothing | src/engine.rs:2162-2259 | in a local or a mirrored store a parked plan ends, under every schedule of crashes and reopenings, with its entries appended once, the slot clear, and either history within budget and no intent or, exactly where a mirror has yet to acknowledge, everything retained and the intent at its last phase; in the undisturbed run's state but for the order of the checkpoint's inventory |
| Reopenings.ReachableCompactionIsAllOrNothing | src/engine.rs:2162-2259 | so does every plan whose park is accepted in any reachable state, with the readiness derived from the run |
| Reopenings.ShippedPlanFinishes | src/engine.rs:1746-1800 | a plan that waits for its mirror finishes once the mirror acknowledges the last entry |
| Reopenings.EveryCrashScheduleEndsAlike | src/engine.rs:128-158 | from any stage the run that completes leaves the uninterrupted run's state but for that order, and exactly it if and only if nothing crashed, the engine already listed families in table order, or the first crash fell after the checkpoint was published |
| Recovery.PlanCompletes | src/engine.rs:2209-2259 | a parked plan applies each planned operation once, and finishes if and only if its last phase may release what it covers |
| Recovery.FaultIsCrash | src/engine.rs:2582-2600 | an armed fault stops the run in a state a crash could have left |
| Receipts.FaultFires | src/engine.rs:2209-2259 | an interruption armed for a phase of a plan that would complete always fires, once, and resuming what it left reaches the undisturbed end |
| Receipts.PlanAnnouncesOnce | src/engine.rs:2209-2259 | a plan in place announces its own changes once, however many phases follow |
| Openings.OpenVerdict | src/engine.rs:128-135 | a recovering open of any sound store, with or without an intent, succeeds if and only if what is pending is in place and the log is within budget, or the store local, or everything acknowledged; accepted, it leaves no intent and no more log than the budget, refused, it releases nothing, and the run invariant holds of what it leaves |
| Openings.ReachableOpens | src/engine.rs:128-135 | so it is for every reachable store: served or refused it holds the rows of its history, which is the one before but for the entries of a plan in place, and without a plan only history moves |
| Openings.ConfiguredVerdict | src/engine.rs:1839-1868 | compaction to the store's own budget succeeds if and only if the log is within it, or the store local, or everything acknowledged; then at most the budget stays, and otherwise all of it |
| Reopenings.RecoveryServesTheSameStore | src/engine.rs:116-135 | after any schedule that leaves an intent, a plain open refuses the store, and a recovering open brings it to that state and serves it, or reports that the mirror has not acknowledged it |
| Reopenings.RecoveryNeedsCatalogOrder | src/engine.rs:3217-3224 | two runs from one stage under two listings of the inventory end alike but for its order, and equal if and only if the listings are one or the checkpoint was already published |
| Recovery.CommitStrandsPlan | src/engine.rs:2396-2400 | a commit between park and resume makes every later resume fail and change nothing |
| Restores.ReachableImportRestores | src/engine.rs:1989-2096 | an import of what a reachable store exports always restores its rows, and restores its catalog, counters, cursors and head if and only if the suffix is not empty, holds no identified assert, and the families registered are those of the checkpoint's cut |
| Restores.QuietImportRestores | src/engine.rs:1989-2096 | when nothing was registered or evolved since the cut, if and only if the suffix is not empty and holds no identified assert |
| Restores.RunRecords | src/engine.rs:1614-1693 | in every reachable state the latest checkpoint's inventory and counters are those the store had when it was cut |
| Restores.CountersUnmoved | src/engine.rs:381-448 | with the families of the cut, the counters are the cut's if and only if no later entry minted an identifier |
| Restores.ReachableImportContinues | src/engine.rs:1989-2096 | then the imported store satisfies the invariant, and any later calls and heterogeneous groups, with the maintenance each runs, return, deliver and mint what they do on the source |
| Continuations.ImportContinuesHistory | src/engine.rs:1989-2096 | where an import restores its source, the imported store satisfies the run invariant with the source's whole history if and only if it is local, or its suffix is that whole history |
| Continuations.ReachableImportRunsOn | src/engine.rs:1989-2096 | so after an import of what a run of a local store reached, every further legal run keeps the run invariant, and the history from before the import on is still what the tables hold |
| Imports.PutWrites | src/engine.rs:2062-2070 | a log row written at its key is found there and every other key keeps its row, whatever order the suffix comes in; Imports.PutStaysOrdered keeps the rows in key order |
| Imports.EmptySuffixBreaksChain | src/engine.rs:2063-2070 | after an import with an empty suffix the next accepted call breaks the chain and the log no longer folds |
| Bindings.IngestVerdict | src/import.rs:40-48 | an import session takes one checkpoint, and only one whose every content address is true |
| Bindings.IngestedIsTheOriginal | src/import.rs:40-48 | a checkpoint ingested under a digest the source published is the source's, or two streams share a hash |
| Bindings.ImportVerdict | src/engine.rs:1989-2016 | an import starts only on a versioned store nothing was written to, of the checkpoint's own name, from an inventory its schema hash names |
| Bindings.ImportNamesTablesOnce | src/engine.rs:2037-2087 | an import that folds has written the store before it fills the catalog, and reports success exactly when the inventory names no table twice |
| Bindings.ImportBindsInventory | src/engine.rs:2006-2016 | an inventory other than the one the schema hash was taken of is refused, or two distinct streams share a hash |
| Receipts.ImportReports | src/engine.rs:2086-2096 | an accepted import reports the range its checkpoint covers, its suffix, the digest and number of the rows they fold to, and the cursors it leaves |
| LogSlots.RebuildSlotsIsExact | src/commit_log.rs:245-277 | recomputing the derived slots from the log restores them, whatever they hold, if and only if the log was never compacted |
| LogSlots.CompleteMeansVersioned | src/engine.rs:3243-3252 | the length test holds exactly when every retained commit has its versioned entry |
| LogSlots.RebuildDerivedSlots | src/commit_log.rs:245-277 | the open-time recomputation verifies the log from no predecessor and then sets the three slots |
| Catalogs.Catalog.Insert | src/catalog.rs:53-64 | inserts at the end, or refuses a bound table and changes nothing |
| Catalogs.Catalog.Evolve | src/catalog.rs:41-51 | replaces the first registration at the table and nothing else |
| Catalogs.ReloadedLists | src/engine.rs:137-158 | the inventory read back at open answers every lookup as the durable rows do |
| Versioning.SortedUnique | src/versioning.rs:237-248 | a sorted inventory is determined by its members |
| Sessions.StagingSession.AppendEntry | src/staging.rs:501-522 | buffering allocates the next sequence and snapshot and chains the entry to the one before |
| Sessions.StagingSession.MintIdentifier | src/staging.rs:560-578 | consecutive mints are consecutive identifiers; the first per table records its durable start |
| Sessions.StagingSession.OverlayEffects | src/staging.rs:582-603 | collects the buffered effects on one table in group order |
| Sessions.StagingSession.PreImageFor | src/engine.rs:3005-3037 | finds the record a staged retract removes |
| Sessions.PrepareStagedWrites | src/engine.rs:2878-2981 | validates a staged request against the session as it stood before it |
| Sessions.BufferPrepared | src/engine.rs:2878-2981 | records a request's overlay effects, pre-images and entry |
| Transactions.PrefixRemoved | src/commit_log.rs:195-229 | collecting the keys of a prefix and removing them one by one leaves exactly the later rows |
| Transactions.Transaction.AppendBoth | src/commit_log.rs:166-192 | writing both log rows, the outbox row and the cursors by key is the log half of an append |
| Transactions.Transaction.CompactThrough | src/commit_log.rs:216-229 | the compaction transaction, key by key, is the trim of the specification |
| Transactions.Transaction.Materialize | src/fold.rs:443-512 | lands one row through the directory, or refuses a key of the wrong kind |
| Engines.PrepareWrites | src/atomic.rs:308-335 | the looping validation accepts or refuses exactly as specified |
| Engines.Engine.Issue | src/engine.rs:381-1128 | any write returns, stores and delivers what the direct call does, or with a session engaged buffers it and leaves the store alone |
| Engines.Engine.CommitGroup | src/atomic.rs:308-367 | a heterogeneous commit, with its maintenance, is not buffered by an engaged session |
| Engines.Engine.CheckpointNow | src/engine.rs:1614-1693 | publishes the checkpoint of the specification or changes nothing |
| Engines.Engine.LoadLatest | src/engine.rs:1699-1722 | loads and verifies the latest checkpoint segment by segment |
| Engines.Engine.CompactVersionedHistory | src/engine.rs:1730-1833 | compacts covered history down to a budget |
| Engines.Engine.CompactConfiguredHistory | src/engine.rs:1839-1868 | compacts to the durable policy's own budget |
| Engines.Engine.RegisterFamilyTable | src/engine.rs:176-205 | registers, evolves in place, or fails closed with the mismatch |
| Engines.Engine.EvolveRegistered | src/engine.rs:230-356 | moves the in-memory catalog first and restores it on any failure |
| Engines.Engine.RebuildFromLog | src/engine.rs:1941-1974 | re-materializes every folded row in one write |
| Engines.Engine.VerifyEntries | src/engine.rs:2400-2432 | checks predecessor, sequence, snapshot and digest of each parked entry in order |
| Engines.Engine.MaterializeStagedGroup | src/engine.rs:2381-2556 | one write lands the parked group and clears the slot, then its changes are announced |
| Engines.Engine.ResumeCompaction | src/engine.rs:2209-2259 | drives a parked plan through its phases, faults included |
| Engines.Engine.Recover | src/engine.rs:128-135 | resumes a pending plan, then compacts to the policy's budget |
| Engines.Engine.MatchTexts | src/engine.rs:3039-3094 | reads a domain table through the session |
| Engines.Engine.MatchNumbers | src/engine.rs:3096-3162 | reads an identified table through the session |
| Engines.Engine.ApplyImportNow | src/engine.rs:1989-2096 | applies a checkpoint and suffix in one write, then lists the families in memory |

## Left out

- The storage kernel's files, pages and encoding: tables are maps, and one write is one atomic update.
- Record encoding and portable checkpoint bytes: payloads are opaque byte strings that survive a round trip.
- The compression function of the hash: only the byte streams fed to it are modelled.
- Record heads of operations come from a separate crate that is not part of this model; the stream uses the operation names, and only their distinctness matters.
- The durable policy row is one field of the store; reopening with a different policy is not modelled.
- Locks, threads, subscription registration, detached delivery and sink failures: only the ordered list of announced changes is kept, and an announcement that fails after the write is not modelled.
- Range filters of reads, and the query operators that only return an error; a read is modelled up to the row set they filter.
- `replay_versioned` and the raw log accessors: plain reads of the two logs.
- The open-time layout decision table, outbox rows planted before the topology was recorded, and error message text.
- Runs.StepOk: an evolution of a family with rows in a blocked store is a step only together with the restart that follows it, because it leaves memory behind disk; the guard is the exact one of Lifetimes.EvolutionVerdict.
- Runs.Next: an import is not a step of a run, since it needs a new store; the imported store starts a run of its own, with its source's history (Continuations.ImportContinuesHistory).
- Reopenings.CompactionIsAllOrNothing: is stated for a plan no other commit, discard or acknowledgement falls into (Recovery.CommitStrandsPlan, Recovery.DiscardStrandsPlan and Reopenings.ShippedPlanFinishes show what those do).
