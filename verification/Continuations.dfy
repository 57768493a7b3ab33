// An imported store lives on with its source's history: every theorem about runs
// applies to it from then on.
module Continuations {
  import opened ByteStrings
  import opened Errors
  import opened Versioning
  import opened CanonicalViews
  import opened Checkpoints
  import opened Catalogs
  import opened Stores
  import opened Invariants
  import opened Histories
  import opened Retention
  import opened Writes
  import opened Staging
  import opened StagingLaws
  import opened Imports
  import opened Ledgers
  import opened Lifetimes
  import opened Runs
  import opened Restores

  // ---- What the restored store retains ----

  lemma RestoredLatest(h: Hash, src: Storage, k: Checkpoint, suffix: seq<Entry>, st: Storage)
    requires LatestCheckpoint(h, src) == Ok(Some(k)) && CoversOk(src, Some(k)) && st == RestoredFresh(h, src, k, suffix)
    ensures LatestCheckpoint(h, st) == Ok(Some(k))
  {
    LatestIs(h, src, k);
    LoadedDistinguished(h, src.segments, k.metadata, k.segments);
    RestoredLoads(h, st, k);
  }

  /** It folds to the source's view. */
  lemma RestoredRemembers(h: Hash, src: Storage, history: seq<Entry>, k: Checkpoint, suffix: seq<Entry>, st: Storage)
    requires Remembers(h, src, history) && LatestCheckpoint(h, src) == Ok(Some(k))
    requires LatestCheckpoint(h, st) == Ok(Some(k))
    requires suffix == EntriesFrom(src.versioned, k.metadata.last + 1) && st.versioned == suffix
    ensures Remembers(h, st, history)
  {
    FromTwice(src.versioned, EntryRowSequence, k.metadata.last + 1);
    assert ViewOver(h, st, Some(k)) == ViewOver(h, src, Some(k));
  }

  lemma ProjectionsTail(rows: seq<Entry>, history: seq<Entry>)
    requires Tail(rows, history)
    ensures Tail(Projections(rows), Projections(history))
  {
  }

  /** It retains the end of the source's history. */
  lemma RestoredRetains(h: Hash, src: Storage, history: seq<Entry>, k: Checkpoint, suffix: seq<Entry>, st: Storage)
    requires Retains(src, history) && Sequenced(src) && CoversOk(src, Some(k))
    requires suffix == EntriesFrom(src.versioned, k.metadata.last + 1)
    requires st.versioned == suffix && st.commits == Projections(suffix)
    ensures Retains(st, history)
  {
    FromConsecutive(src.versioned, EntryRowSequence, k.metadata.last + 1, Sequence(src));
    ProjectionsTail(suffix, history);
  }

  /** Its ledger is the source's if and only if no mirror is owed an entry that the
      import left behind. */
  lemma RestoredLedger(h: Hash, w: World, src: Storage, history: seq<Entry>, k: Checkpoint, suffix: seq<Entry>,
                       st: Storage)
    requires Ledger(h, w, src, history) && SameCore(st, src) && st == RestoredFresh(h, src, k, suffix) && suffix != []
    requires Retains(st, history) && Stamps(h, src.policy, k.metadata)
    ensures Ledger(h, w, st, history) <==> !Mirrored(src) || |suffix| == Sequence(src)
  {
  }

  // ---- The system that opens it ----

  /** An engine on an imported store, with the history of the source. */
  function Continued(out: Imported, history: seq<Entry>): System { System(out.storage, out.catalog, None, history) }

  /** What the run invariant gives of the source. */
  lemma SourceSound(h: Hash, w: World, sys: System, k: Checkpoint)
    requires SystemOk(h, w, sys) && LatestCheckpoint(h, sys.storage) == Ok(Some(k))
    ensures Inv(h, w, sys.storage, sys.catalog) && Ledger(h, w, sys.storage, sys.history)
    ensures Remembers(h, sys.storage, sys.history) && Stamped(h, sys.storage)
    ensures Retains(sys.storage, sys.history) && Sequenced(sys.storage) && CoversOk(sys.storage, Some(k))
  {
    SystemStamped(h, w, sys);
  }

  /** The restored store beside its source. */
  lemma RestoredIs(h: Hash, w: World, src: Storage, catalog: seq<FamilyIdentity>, history: seq<Entry>, k: Checkpoint,
                   suffix: seq<Entry>, st: Storage)
    requires Inv(h, w, src, catalog) && Stamped(h, src) && LatestCheckpoint(h, src) == Ok(Some(k))
    requires Ledger(h, w, src, history) && Remembers(h, src, history)
    requires suffix == EntriesFrom(src.versioned, k.metadata.last + 1) && suffix != []
             && InventoryCurrent(src, k.metadata)
    requires st == RestoredFresh(h, src, k, suffix)
    ensures Remembers(h, st, history) && DistinctTables(k.metadata.inventory.families)
    ensures Ledger(h, w, st, history) <==> !Mirrored(src) || |suffix| == Sequence(src)
  {
    SourceOk(h, w, src, catalog, k);
    RestoredLatest(h, src, k, suffix, st);
    RestoredRemembers(h, src, history, k, suffix, st);
    RestoredRetains(h, src, history, k, suffix, st);
    RestoredCore(h, w, src, k, suffix, st);
    RestoredLedger(h, w, src, history, k, suffix, st);
  }

  lemma ContinuedOk(h: Hash, w: World, out: Imported, history: seq<Entry>)
    requires Inv(h, w, out.storage, out.catalog) && DistinctTables(out.catalog) && Remembers(h, out.storage, history)
    requires out.storage.slot.None?
    ensures SystemOk(h, w, Continued(out, history)) <==> Ledger(h, w, out.storage, history)
  {
  }

  /** Where an import restores its source, the engine on the imported store satisfies
      the run invariant with the source's whole history if and only if it is a local
      store, or a mirrored one whose suffix is that whole history: otherwise the
      outbox lacks entries the new mirror was never sent. */
  lemma ImportContinuesHistory(h: Hash, w: World, sys: System, k: Checkpoint, suffix: seq<Entry>, out: Imported)
    requires SystemOk(h, w, sys) && LatestCheckpoint(h, sys.storage) == Ok(Some(k))
    requires suffix == EntriesFrom(sys.storage.versioned, k.metadata.last + 1) && suffix != []
    requires InventoryCurrent(sys.storage, k.metadata)
    requires out == ApplyImport(h, EmptyStore(sys.storage.policy), [], w.identified, k, suffix)
    ensures SystemOk(h, w, Continued(out, sys.history)) <==>
              (!Mirrored(sys.storage) || |suffix| == Sequence(sys.storage))
  {
    var src := sys.storage;
    SourceSound(h, w, sys, k);
    ImportedInv(h, w, src, sys.catalog, k, suffix, out);
    SourceOk(h, w, src, sys.catalog, k);
    ImportLands(h, w, src, k, suffix);
    RestoredIs(h, w, src, sys.catalog, sys.history, k, suffix, out.storage);
    ContinuedOk(h, w, out, sys.history);
  }

  /** So a local store that a run reached and an import restored runs on: whatever
      legal steps follow, the run invariant holds, the history only grows, and the
      whole of it, from before the import on, is still what the tables hold. */
  lemma ReachableImportRunsOn(h: Hash, w: World, policy: Policy, steps: seq<Step>, k: Checkpoint, suffix: seq<Entry>,
                              out: Imported, more: seq<Step>)
    requires AllLegal(h, w, Created(policy), steps) && !policy.topology.Mirror?
    requires LatestCheckpoint(h, After(h, w, Created(policy), steps).storage) == Ok(Some(k))
    requires suffix == EntriesFrom(After(h, w, Created(policy), steps).storage.versioned, k.metadata.last + 1)
    requires suffix != [] && !AssertsIdentified(AllOps(suffix))
    requires LastCut(h, w, Created(policy), steps).registrations ==
               After(h, w, Created(policy), steps).storage.registrations
    requires out == ApplyImport(h, EmptyStore(Some(policy)), [], w.identified, k, suffix)
    requires AllLegal(h, w, Continued(out, After(h, w, Created(policy), steps).history), more)
    ensures var history := After(h, w, Created(policy), steps).history;
            var end := After(h, w, Continued(out, history), more);
            && SystemOk(h, w, end) && history <= end.history && HistoryIsTheStore(h, w, end)
  {
    var sys, cut := After(h, w, Created(policy), steps), LastCut(h, w, Created(policy), steps);
    RunRecords(h, w, policy, steps);
    CreatedOk(h, w, policy);
    RunAdvances(h, w, Created(policy), steps);
    UnmovedContinues(h, w, sys, cut, k, suffix, out);
    ContinuedRuns(h, w, Continued(out, sys.history), more);
  }

  /** The whole history folds to the rows the tables hold. */
  ghost predicate HistoryIsTheStore(h: Hash, w: World, sys: System) {
    var whole := Fold(h, [], sys.history, None);
    whole.Ok? && Agrees(w, sys.storage.tables, whole.value.rows, sys.storage.registrations)
  }

  lemma UnmovedContinues(h: Hash, w: World, sys: System, cut: Cut, k: Checkpoint, suffix: seq<Entry>, out: Imported)
    requires SystemOk(h, w, sys) && KeysExact(w, sys.storage) && Recorded(w, sys.storage, sys.history, cut)
    requires LatestCheckpoint(h, sys.storage) == Ok(Some(k)) && cut.registrations == sys.storage.registrations
    requires suffix == EntriesFrom(sys.storage.versioned, k.metadata.last + 1)
    requires suffix != [] && !AssertsIdentified(AllOps(suffix)) && !Mirrored(sys.storage)
    requires out == ApplyImport(h, EmptyStore(sys.storage.policy), [], w.identified, k, suffix)
    ensures SystemOk(h, w, Continued(out, sys.history))
  {
    SystemCovers(h, w, sys, k);
    RecordDecides(h, w, sys.storage, sys.history, cut, k);
    ImportContinuesHistory(h, w, sys, k, suffix, out);
  }

  lemma ContinuedRuns(h: Hash, w: World, start: System, more: seq<Step>)
    requires SystemOk(h, w, start) && AllLegal(h, w, start, more)
    ensures var end := After(h, w, start, more);
            SystemOk(h, w, end) && start.history <= end.history && HistoryIsTheStore(h, w, end)
  {
    RunAdvances(h, w, start, more);
    SystemHistory(h, w, After(h, w, start, more));
  }

  lemma SystemHistory(h: Hash, w: World, sys: System)
    requires SystemOk(h, w, sys)
    ensures HistoryIsTheStore(h, w, sys)
  {
    WholeHistoryIsTheView(h, w, sys.storage, sys.catalog, sys.history);
  }
}
