// The compaction machine: a planned retraction group, applied, checkpointed and
// compacted, with a durable intent that survives a crash between any two writes.
module Recovery {
  import opened ByteStrings
  import opened Errors
  import opened Versioning
  import opened CanonicalViews
  import opened Checkpoints
  import opened Catalogs
  import opened Stores
  import opened Invariants
  import opened Histories
  import opened Retention
  import opened Writes
  import opened Rebuilding
  import opened Staging
  import opened StagingLaws
  import opened StagingSafety

  /** How much of a compaction is still to do. */
  function Rank(intent: Option<Intent>): nat {
    match intent
    case None => 0
    case Some(i) => (match i.phase case Planned => 3 case Applied => 2 case Checkpointed => 1)
  }

  datatype Fault = AfterPlanPersisted | AfterRetractionsApplied | AfterCheckpointPublished | AfterHistoryFloorAdvanced

  function BeginCompaction(h: Hash, st: Storage, catalog: seq<FamilyIdentity>,
                           engaged: Option<Session>): Result<Session> {
    if st.intent.Some? then Err(CompactionIntentOccupied) else Begin(h, st, catalog, engaged)
  }

  datatype Parked = Parked(result: Result<bool>, storage: Storage, fault: Option<Fault>)

  /** The plan and its intent, in one write. The session ends either way. */
  function ParkCompaction(st: Storage, engaged: Option<Session>, fault: Option<Fault>): Parked {
    if engaged.None? then Parked(Err(StagingSessionNotEngaged), st, fault)
    else
      var s := engaged.value;
      if s.entries == [] then Parked(Ok(false), st, fault)
      else if !BaseCurrent(st, s.base) then Parked(Err(StagingBaseMoved(Sequence(st))), st, fault)
      else if st.slot.Some? || st.intent.Some? then Parked(Err(CompactionIntentOccupied), st, fault)
      else
        var st' := st.(slot := Some(Group(s)), intent := Some(Intent(Planned, None)));
        if fault == Some(AfterPlanPersisted) then Parked(Err(CompactionInterrupted), st', None)
        else Parked(Ok(true), st', fault)
  }

  // ---- One phase ----

  /** The applied phase up to its intent write: a verified checkpoint that covers
      the plan, cut if the latest one does not. */
  function CoverPlan(h: Hash, st: Storage, catalog: seq<FamilyIdentity>, final: nat): Outcome<()> {
    var latest := LatestCheckpoint(h, st);
    if latest.Err? then Outcome(Err(latest.error), st)
    else if latest.value.Some? && latest.value.value.metadata.last >= final then Outcome(Ok(()), st)
    else PublishedCovers(h, st, WriteCheckpoint(h, st, catalog), final)
  }

  /** Read back what was just published. */
  function PublishedCovers(h: Hash, st: Storage, written: Result<Storage>, final: nat): Outcome<()> {
    if written.Err? then Outcome(Err(written.error), st)
    else
      var reloaded := LatestCheckpoint(h, written.value);
      if reloaded.Err? then Outcome(Err(reloaded.error), written.value)
      else if reloaded.value.None? then Outcome(Err(CheckpointRowMissing(0)), written.value)
      else if reloaded.value.value.metadata.last < final
      then Outcome(Err(CompactionCheckpointBehind(reloaded.value.value.metadata.last, final)), written.value)
      else Outcome(Ok(()), written.value)
  }

  /** What one phase did: whether more phases follow, the durable state it left,
      the fault still armed, and what it announced. */
  datatype Phased = Phased(more: Result<bool>, storage: Storage, fault: Option<Fault>, deltas: seq<Delta>)

  function ApplyPlan(h: Hash, st: Storage, directory: Directory, engaged: bool, fault: Option<Fault>): Phased {
    var m := Materialize(h, st, directory, engaged);
    if m.result.Err? then Phased(Err(m.result.error), st, fault, [])
    else if fault == Some(AfterRetractionsApplied) then Phased(Err(CompactionInterrupted), m.storage, None, m.deltas)
    else Phased(Ok(true), m.storage, fault, m.deltas)
  }

  function PublishCheckpoint(h: Hash, st: Storage, catalog: seq<FamilyIdentity>, final: Option<nat>,
                             fault: Option<Fault>): Phased {
    if final.None? then Phased(Err(CompactionIntentMissingSequence), st, fault, [])
    else
      var covered := CoverPlan(h, st, catalog, final.value);
      if covered.result.Err? then Phased(Err(covered.result.error), covered.storage, fault, [])
      else
        var st' := covered.storage.(intent := Some(Intent(Checkpointed, final)));
        if fault == Some(AfterCheckpointPublished) then Phased(Err(CompactionInterrupted), st', None, [])
        else Phased(Ok(true), st', fault, [])
  }

  function AdvanceFloor(h: Hash, st: Storage, catalog: seq<FamilyIdentity>, current: nat,
                        fault: Option<Fault>): Phased {
    var out := CompactConfigured(h, st, catalog, current);
    if out.result.Err? then Phased(Err(out.result.error), out.storage, fault, [])
    else if fault == Some(AfterHistoryFloorAdvanced) then Phased(Err(CompactionInterrupted), out.storage, None, [])
    else Phased(Ok(false), out.storage.(intent := None), fault, [])
  }

  /** Run the phase the durable intent names. `engaged` is the commit sequence an
      open staging session reports, if one is open. */
  function RunPhase(h: Hash, st: Storage, catalog: seq<FamilyIdentity>, directory: Directory, engaged: Option<nat>,
                    fault: Option<Fault>): Phased {
    match st.intent
    case None => Phased(Ok(false), st, fault, [])
    case Some(Intent(Planned, _)) => ApplyPlan(h, st, directory, engaged.Some?, fault)
    case Some(Intent(Applied, final)) => PublishCheckpoint(h, st, catalog, final, fault)
    case Some(Intent(Checkpointed, _)) => AdvanceFloor(h, st, catalog, engaged.GetOr(Sequence(st)), fault)
  }

  /** Every phase that continues has moved the durable intent strictly forward. */
  lemma PhaseDescends(h: Hash, st: Storage, catalog: seq<FamilyIdentity>, directory: Directory, engaged: Option<nat>,
                      fault: Option<Fault>)
    ensures var p := RunPhase(h, st, catalog, directory, engaged, fault);
            p.more == Ok(true) ==> Rank(p.storage.intent) == Rank(st.intent) - 1
  {
    if st.intent.Some? && st.intent.value.phase.Planned? && Materialize(h, st, directory, engaged.Some?).result.Ok? {
      PlanApplies(h, st, directory, engaged.Some?);
    }
  }

  lemma PlanApplies(h: Hash, st: Storage, directory: Directory, engaged: bool)
    requires st.intent.Some? && st.intent.value.phase.Planned? && Materialize(h, st, directory, engaged).result.Ok?
    ensures var st' := Materialize(h, st, directory, engaged).storage;
            st'.slot.None? && st'.intent == Some(Intent(Applied, Some(Sequence(st'))))
  {
  }

  datatype Resumed = Resumed(result: Result<()>, storage: Storage, fault: Option<Fault>, deltas: seq<Delta>)

  /** Drive a parked compaction to its end, one durable phase at a time. */
  function Resume(h: Hash, st: Storage, catalog: seq<FamilyIdentity>, directory: Directory, engaged: Option<nat>,
                  fault: Option<Fault>): Resumed
    decreases Rank(st.intent)
  {
    var p := RunPhase(h, st, catalog, directory, engaged, fault);
    if p.more.Err? then Resumed(Err(p.more.error), p.storage, p.fault, p.deltas)
    else if !p.more.value then Resumed(Ok(()), p.storage, p.fault, p.deltas)
    else
      PhaseDescends(h, st, catalog, directory, engaged, fault);
      var rest := Resume(h, p.storage, catalog, directory, engaged, p.fault);
      rest.(deltas := p.deltas + rest.deltas)
  }

  // ---- The durable states a run passes through ----

  /** `x` is a durable state some crash of one phase from `st` leaves behind. */
  ghost predicate PhaseLeaves(h: Hash, st: Storage, catalog: seq<FamilyIdentity>, directory: Directory, x: Storage) {
    || x == st
    || x == RunPhase(h, st, catalog, directory, None, None).storage
    || match st.intent
       case None => false
       case Some(Intent(Planned, _)) => false
       case Some(Intent(Applied, final)) => final.Some? && x == CoverPlan(h, st, catalog, final.value).storage
       case Some(Intent(Checkpointed, _)) =>
         || x == CompactConfigured(h, st, catalog, Sequence(st)).storage
         || (Compacts(st, Sequence(st)) && x == EnsureCovering(h, st, catalog, Sequence(st)).storage)
  }

  /** The configured compaction gets as far as its covering checkpoint. */
  predicate Compacts(st: Storage, current: nat) {
    && st.policy.Some? && |st.versioned| > st.policy.value.maximumLive
    && ConfiguredAcknowledgement(st, current).Ok?
    && ValidateAcknowledgement(st, ConfiguredAcknowledgement(st, current).value).Ok?
  }

  /** ... of the whole run from `st`. */
  ghost predicate RunLeaves(h: Hash, st: Storage, catalog: seq<FamilyIdentity>, directory: Directory, x: Storage)
    decreases Rank(st.intent)
  {
    var p := RunPhase(h, st, catalog, directory, None, None);
    || PhaseLeaves(h, st, catalog, directory, x)
    || (p.more == Ok(true) &&
        (PhaseDescends(h, st, catalog, directory, None, None);
         RunLeaves(h, p.storage, catalog, directory, x)))
  }

  // ---- Materializing a group keeps the invariant ----

  lemma {:induction false} GroupPreserves(h: Hash, w: World, st: Storage, catalog: seq<FamilyIdentity>,
                                          entries: seq<Entry>)
    requires Inv(h, w, st, catalog) && st.policy.Some? && AllCurrent(w, st.registrations, AllOps(entries))
    requires VerifyGroup(h, entries, st.head, Sequence(st), Snapshot(st)) == Ok(())
    ensures var st' := AppendEntries(st, entries);
            && Inv(h, w, st', catalog) && (Complete(st') <==> Complete(st))
            && Sequence(st') == Sequence(st) + |entries|
            && LatestCheckpoint(h, st') == LatestCheckpoint(h, st)
            && st'.policy == st.policy && st'.cursor == st.cursor && st'.registrations == st.registrations
  {
    if entries != [] {
      var n := |entries| - 1;
      var init, e := entries[..n], entries[n];
      CurrentConcat(w, st.registrations, AllOps(init), e.operations);
      GroupPreserves(h, w, st, catalog, init);
      AppendMeaning(st, init);
      AppendPreserves(h, w, AppendEntries(st, init), catalog, e);
      AppendKeepsCheckpoint(h, AppendEntries(st, init), e);
    }
  }

  lemma CurrentConcat(w: World, registrations: map<Name, FamilyIdentity>, a: seq<LogOperation>, b: seq<LogOperation>)
    requires AllCurrent(w, registrations, a + b)
    ensures AllCurrent(w, registrations, a) && AllCurrent(w, registrations, b)
  {
    assert forall op :: op in a || op in b ==> op in a + b;
  }

  /** The slot and the intent play no part in the invariant. */
  lemma InvIgnoresSlot(h: Hash, w: World, st: Storage, catalog: seq<FamilyIdentity>, slot: Option<StagedGroup>,
                       intent: Option<Intent>)
    requires Inv(h, w, st, catalog)
    ensures Inv(h, w, st.(slot := slot, intent := intent), catalog)
    ensures LatestCheckpoint(h, st.(slot := slot, intent := intent)) == LatestCheckpoint(h, st)
  {
    var c := LatestCheckpoint(h, st).value;
    LatestIgnoresSlot(h, st, slot, intent);
    FoldIgnoresSlot(h, w, st, c, slot, intent);
    LogIgnoresSlot(h, st, c, slot, intent);
  }

  lemma LatestIgnoresSlot(h: Hash, st: Storage, slot: Option<StagedGroup>, intent: Option<Intent>)
    ensures LatestCheckpoint(h, st.(slot := slot, intent := intent)) == LatestCheckpoint(h, st)
  {
  }

  lemma FoldIgnoresSlot(h: Hash, w: World, st: Storage, c: Option<Checkpoint>, slot: Option<StagedGroup>,
                        intent: Option<Intent>)
    requires FoldOk(h, w, st, c)
    ensures FoldOk(h, w, st.(slot := slot, intent := intent), c)
  {
    assert ViewOver(h, st.(slot := slot, intent := intent), c) == ViewOver(h, st, c);
  }

  lemma LogIgnoresSlot(h: Hash, st: Storage, c: Option<Checkpoint>, slot: Option<StagedGroup>, intent: Option<Intent>)
    requires Sequenced(st) && Linked(h, st) && CoversOk(st, c)
    ensures var st' := st.(slot := slot, intent := intent); Sequenced(st') && Linked(h, st') && CoversOk(st', c)
  {
  }

  // ---- The stages of a plan no other operation disturbs ----

  /** A complete store; a local one has shipped nothing. */
  ghost predicate Ready(h: Hash, w: World, st: Storage, catalog: seq<FamilyIdentity>) {
    Inv(h, w, st, catalog) && st.policy.Some? && (!Mirrored(st) ==> st.cursor.None?) && Complete(st)
  }

  /** The last phase may release what the checkpoint covers: nothing has to go, or a
      mirror, if there is one, has acknowledged the whole log. */
  predicate Releases(st: Storage)
    requires st.policy.Some?
  {
    || |st.versioned| <= st.policy.value.maximumLive
    || !Mirrored(st)
    || (st.cursor.Some? && st.cursor.value.sequence >= Sequence(st))
  }

  /** What a refused last phase reports. */
  function Unacknowledged(st: Storage): Error {
    HistoryCompactionUnacknowledged(Sequence(st), if st.cursor.Some? then Some(st.cursor.value.sequence) else None)
  }

  ghost predicate Covered(h: Hash, st: Storage) {
    var latest := LatestCheckpoint(h, st);
    latest.Ok? && latest.value.Some? && latest.value.value.metadata.last == Sequence(st)
  }

  ghost predicate PlannedStage(h: Hash, w: World, st: Storage, catalog: seq<FamilyIdentity>) {
    && Ready(h, w, st, catalog) && st.intent == Some(Intent(Planned, None))
    && st.slot.Some? && GroupOk(h, w, st, st.slot.value)
    && Collisionless(h, AppendEntries(st, st.slot.value.entries), catalog)
  }

  ghost predicate AppliedStage(h: Hash, w: World, st: Storage, catalog: seq<FamilyIdentity>) {
    && Ready(h, w, st, catalog) && st.intent == Some(Intent(Applied, Some(Sequence(st))))
    && st.slot.None? && Sequence(st) > 0 && Collisionless(h, st, catalog)
  }

  ghost predicate CheckpointedStage(h: Hash, w: World, st: Storage, catalog: seq<FamilyIdentity>) {
    && Ready(h, w, st, catalog) && st.intent.Some? && st.intent.value.phase.Checkpointed?
    && st.slot.None? && Covered(h, st)
  }

  ghost predicate Stage(h: Hash, w: World, st: Storage, catalog: seq<FamilyIdentity>) {
    st.intent.None? || PlannedStage(h, w, st, catalog) || AppliedStage(h, w, st, catalog)
        || CheckpointedStage(h, w, st, catalog)
  }

  lemma ReadyIgnoresSlot(h: Hash, w: World, st: Storage, catalog: seq<FamilyIdentity>, slot: Option<StagedGroup>,
                         intent: Option<Intent>)
    requires Ready(h, w, st, catalog)
    ensures Ready(h, w, st.(slot := slot, intent := intent), catalog)
    ensures Covered(h, st) ==> Covered(h, st.(slot := slot, intent := intent))
  {
    InvIgnoresSlot(h, w, st, catalog, slot, intent);
  }

  lemma CutIgnoresSlot(h: Hash, st: Storage, catalog: seq<FamilyIdentity>, slot: Option<StagedGroup>,
                       intent: Option<Intent>)
    ensures CutCheckpoint(h, st.(slot := slot, intent := intent), catalog) == CutCheckpoint(h, st, catalog)
  {
    var st' := st.(slot := slot, intent := intent);
    assert LatestCheckpoint(h, st') == LatestCheckpoint(h, st);
    if st.policy.Some? && LatestCheckpoint(h, st).Ok? {
      CutOverIgnoresSlot(h, st, catalog, LatestCheckpoint(h, st).value, slot, intent);
    }
  }

  lemma CutOverIgnoresSlot(h: Hash, st: Storage, catalog: seq<FamilyIdentity>, c: Option<Checkpoint>,
                           slot: Option<StagedGroup>, intent: Option<Intent>)
    requires st.policy.Some?
    ensures CutOver(h, st.(slot := slot, intent := intent), catalog, c) == CutOver(h, st, catalog, c)
  {
  }

  lemma PlannedAdvances(h: Hash, w: World, st: Storage, catalog: seq<FamilyIdentity>)
    requires PlannedStage(h, w, st, catalog)
    ensures var p := RunPhase(h, st, catalog, w.identified, None, None);
            && p.more == Ok(true) && AppliedStage(h, w, p.storage, catalog)
            && p.storage == AppendEntries(st, st.slot.value.entries).(slot := None, intent := p.storage.intent)
  {
    var entries := st.slot.value.entries;
    MaterializeIsAppend(h, w, st, st.slot.value);
    GroupPreserves(h, w, st, catalog, entries);
    VerifiedStarts(h, entries, st.head, Sequence(st), Snapshot(st));
    AppliedFrom(h, w, AppendEntries(st, entries), catalog);
    PlannedPhase(h, st, catalog, w.identified);
  }

  lemma PlannedPhase(h: Hash, st: Storage, catalog: seq<FamilyIdentity>, directory: Directory)
    requires st.intent == Some(Intent(Planned, None)) && Materialize(h, st, directory, false).result.Ok?
    ensures var p := RunPhase(h, st, catalog, directory, None, None);
            p.more == Ok(true) && p.storage == Materialize(h, st, directory, false).storage
  {
  }

  lemma AppliedFrom(h: Hash, w: World, appended: Storage, catalog: seq<FamilyIdentity>)
    requires Ready(h, w, appended, catalog) && Sequence(appended) > 0 && Collisionless(h, appended, catalog)
    ensures AppliedStage(h, w, appended.(slot := None, intent := Some(Intent(Applied, Some(Sequence(appended))))),
                         catalog)
  {
    ReadyIgnoresSlot(h, w, appended, catalog, None, Some(Intent(Applied, Some(Sequence(appended)))));
    CutIgnoresSlot(h, appended, catalog, None, Some(Intent(Applied, Some(Sequence(appended)))));
  }

  /** The plan is covered at the first attempt, and a second attempt from what the
      first published finds it covered. */
  lemma AppliedCovers(h: Hash, w: World, st: Storage, catalog: seq<FamilyIdentity>)
    requires AppliedStage(h, w, st, catalog)
    ensures var out := CoverPlan(h, st, catalog, Sequence(st));
            && out.result.Ok? && OnlyCheckpoints(st, out.storage)
            && AppliedStage(h, w, out.storage, catalog) && Covered(h, out.storage)
            && CoverPlan(h, out.storage, catalog, Sequence(st)) == out
  {
    var c := LatestCheckpoint(h, st).value;
    if c.None? || c.value.metadata.last < Sequence(st) {
      SuffixReachesCursor(st, BaseOf(c).after);
      CutOverSucceeds(h, w, st, catalog, c);
      CutIs(h, st, catalog, c);
      CoveredByCut(h, w, st, catalog);
    }
  }

  lemma CoveredByCut(h: Hash, w: World, st: Storage, catalog: seq<FamilyIdentity>)
    requires AppliedStage(h, w, st, catalog) && CutCheckpoint(h, st, catalog).Ok?
    ensures var written := WriteCheckpoint(h, st, catalog);
            && written.Ok? && OnlyCheckpoints(st, written.value) && AppliedStage(h, w, written.value, catalog)
               && Covered(h, written.value)
  {
    var st' := WriteCheckpoint(h, st, catalog).value;
    CheckpointPreserves(h, w, st, catalog);
    WriteMovesCheckpoints(h, st, catalog);
    NothingMoreToCut(h, st', catalog);
  }

  lemma NothingMoreToCut(h: Hash, st: Storage, catalog: seq<FamilyIdentity>)
    requires st.policy.Some? && Covered(h, st) && Sequenced(st) && Complete(st)
    ensures CutCheckpoint(h, st, catalog).Err?
  {
    var c := LatestCheckpoint(h, st).value;
    CutIs(h, st, catalog, c);
    NothingToCutOver(h, st, catalog, c);
  }

  lemma NothingToCutOver(h: Hash, st: Storage, catalog: seq<FamilyIdentity>, c: Option<Checkpoint>)
    requires st.policy.Some? && Sequenced(st) && BaseOf(c).after == Sequence(st)
    ensures CutOver(h, st, catalog, c).Err?
  {
    SuffixReachesCursor(st, 0);
    NothingPast(h, st, catalog, c);
  }

  lemma NothingPast(h: Hash, st: Storage, catalog: seq<FamilyIdentity>, c: Option<Checkpoint>)
    requires st.policy.Some? && EntriesFrom(st.versioned, BaseOf(c).after + 1) == []
    ensures CutOver(h, st, catalog, c) == Err(CheckpointNothingToCover)
  {
  }

  lemma CutIs(h: Hash, st: Storage, catalog: seq<FamilyIdentity>, c: Option<Checkpoint>)
    requires st.policy.Some? && Complete(st) && LatestCheckpoint(h, st) == Ok(c)
    ensures CutCheckpoint(h, st, catalog) == CutOver(h, st, catalog, c)
  {
  }

  /** Compacting a covered store succeeds, stays covered, and a second compaction
      finds nothing to do. */
  lemma CheckpointedCompacts(h: Hash, w: World, st: Storage, catalog: seq<FamilyIdentity>)
    requires CheckpointedStage(h, w, st, catalog)
    ensures EnsureCovering(h, st, catalog, Sequence(st)).storage == st
    ensures var out := CompactConfigured(h, st, catalog, Sequence(st));
            && out.result.Ok? == Releases(st)
            && OnlyHistory(st, out.storage) && CheckpointedStage(h, w, out.storage, catalog)
            && (!Releases(st) ==> out.storage == st && out.result == Err(Unacknowledged(st)))
    ensures var out := CompactConfigured(h, st, catalog, Sequence(st));
            Releases(st) ==>
              && |out.storage.versioned| <= st.policy.value.maximumLive && Releases(out.storage)
              && CompactConfigured(h, out.storage, catalog, Sequence(st)).storage == out.storage
              && CompactConfigured(h, out.storage, catalog, Sequence(st)).result.Ok?
  {
    if |st.versioned| > st.policy.value.maximumLive {
      CoveredCompacts(h, st, catalog, LatestCheckpoint(h, st).value.value);
      TrimPreserves(h, w, st, catalog);
    }
  }

  /** Past the budget a covered store trims, or refuses and stays as it is. */
  lemma CoveredCompacts(h: Hash, st: Storage, catalog: seq<FamilyIdentity>, k: Checkpoint)
    requires st.policy.Some? && (!Mirrored(st) ==> st.cursor.None?) && |st.versioned| > st.policy.value.maximumLive
    requires LatestCheckpoint(h, st) == Ok(Some(k)) && k.metadata.last == Sequence(st)
    ensures EnsureCovering(h, st, catalog, Sequence(st)).storage == st
    ensures var out := CompactConfigured(h, st, catalog, Sequence(st));
            if Releases(st) then out.result.Ok? && out.storage == Trim(h, st, k)
            else out.storage == st && out.result == Err(Unacknowledged(st))
  {
  }

  lemma AppliedAdvances(h: Hash, w: World, st: Storage, catalog: seq<FamilyIdentity>)
    requires AppliedStage(h, w, st, catalog)
    ensures var p, covered :=
            RunPhase(h, st, catalog, w.identified, None, None), CoverPlan(h, st, catalog, Sequence(st)).storage;
            && p == Phased(Ok(true), covered.(intent := Some(Intent(Checkpointed, Some(Sequence(st))))), None, [])
            && CheckpointedStage(h, w, p.storage, catalog)
            && RunPhase(h, covered, catalog, w.identified, None, None) == p
  {
    AppliedCovers(h, w, st, catalog);
    var covered := CoverPlan(h, st, catalog, Sequence(st)).storage;
    ReadyIgnoresSlot(h, w, covered, catalog, None, Some(Intent(Checkpointed, Some(Sequence(st)))));
    AppliedPhase(h, st, catalog, w.identified);
    AppliedPhase(h, covered, catalog, w.identified);
  }

  lemma AppliedPhase(h: Hash, st: Storage, catalog: seq<FamilyIdentity>, directory: Directory)
    requires st.intent == Some(Intent(Applied, Some(Sequence(st))))
             && CoverPlan(h, st, catalog, Sequence(st)).result.Ok?
    ensures RunPhase(h, st, catalog, directory, None, None) ==
            Phased(Ok(true),
                   CoverPlan(h, st, catalog,
                             Sequence(st)).storage.(intent := Some(Intent(Checkpointed, Some(Sequence(st))))), None, [])
  {
  }

  lemma CheckpointedPhase(h: Hash, st: Storage, catalog: seq<FamilyIdentity>, directory: Directory)
    requires st.intent.Some? && st.intent.value.phase.Checkpointed?
    ensures var p, out :=
            RunPhase(h, st, catalog, directory, None, None), CompactConfigured(h, st, catalog, Sequence(st));
            p == if out.result.Ok? then Phased(Ok(false), out.storage.(intent := None), None, [])
                 else Phased(Err(out.result.error), out.storage, None, [])
  {
  }

  lemma CheckpointedFinishes(h: Hash, w: World, st: Storage, catalog: seq<FamilyIdentity>)
    requires CheckpointedStage(h, w, st, catalog)
    ensures var p, out :=
            RunPhase(h, st, catalog, w.identified, None, None), CompactConfigured(h, st, catalog, Sequence(st)).storage;
            && p == RunPhase(h, out, catalog, w.identified, None, None)
            && p == if Releases(st) then Phased(Ok(false), out.(intent := None), None, [])
                    else Phased(Err(Unacknowledged(st)), st, None, [])
  {
    CheckpointedCompacts(h, w, st, catalog);
    CheckpointedPhase(h, st, catalog, w.identified);
    CheckpointedPhase(h, CompactConfigured(h, st, catalog, Sequence(st)).storage, catalog, w.identified);
  }

  // ---- All or nothing under every crash schedule ----

  function End(h: Hash, st: Storage, catalog: seq<FamilyIdentity>, directory: Directory): Resumed {
    Resume(h, st, catalog, directory, None, None)
  }

  /** The next phase reaches the same end. */
  lemma EndAfterPhase(h: Hash, st: Storage, catalog: seq<FamilyIdentity>, directory: Directory)
    requires RunPhase(h, st, catalog, directory, None, None).more == Ok(true)
    ensures var p := RunPhase(h, st, catalog, directory, None, None);
            p.fault == None ==> End(h, st, catalog, directory).storage == End(h, p.storage, catalog, directory).storage
                                && End(h, st, catalog, directory).result == End(h, p.storage, catalog, directory).result
  {
  }

  lemma EndByPhase(h: Hash, x: Storage, y: Storage, catalog: seq<FamilyIdentity>, directory: Directory)
    requires RunPhase(h, x, catalog, directory, None, None) == RunPhase(h, y, catalog, directory, None, None)
    ensures End(h, x, catalog, directory) == End(h, y, catalog, directory)
  {
  }

  /** The same plan, still with the same end. */
  ghost predicate SameEnd(h: Hash, w: World, st: Storage, catalog: seq<FamilyIdentity>, x: Storage) {
    Stage(h, w, x, catalog) && End(h, x, catalog, w.identified).storage == End(h, st, catalog, w.identified).storage
  }

  lemma PlannedCrash(h: Hash, w: World, st: Storage, catalog: seq<FamilyIdentity>)
    requires PlannedStage(h, w, st, catalog)
    ensures SameEnd(h, w, st, catalog, RunPhase(h, st, catalog, w.identified, None, None).storage)
  {
    PlannedAdvances(h, w, st, catalog);
    PhaseKeepsFault(h, st, catalog, w.identified);
    EndAfterPhase(h, st, catalog, w.identified);
  }

  lemma PhaseKeepsFault(h: Hash, st: Storage, catalog: seq<FamilyIdentity>, directory: Directory)
    ensures RunPhase(h, st, catalog, directory, None, None).fault == None
  {
  }

  lemma AppliedCrash(h: Hash, w: World, st: Storage, catalog: seq<FamilyIdentity>)
    requires AppliedStage(h, w, st, catalog)
    ensures SameEnd(h, w, st, catalog, RunPhase(h, st, catalog, w.identified, None, None).storage)
    ensures SameEnd(h, w, st, catalog, CoverPlan(h, st, catalog, Sequence(st)).storage)
  {
    AppliedCovers(h, w, st, catalog);
    AppliedAdvances(h, w, st, catalog);
    EndAfterPhase(h, st, catalog, w.identified);
    EndByPhase(h, st, CoverPlan(h, st, catalog, Sequence(st)).storage, catalog, w.identified);
  }

  lemma CheckpointedCrash(h: Hash, w: World, st: Storage, catalog: seq<FamilyIdentity>)
    requires CheckpointedStage(h, w, st, catalog)
    ensures SameEnd(h, w, st, catalog, RunPhase(h, st, catalog, w.identified, None, None).storage)
    ensures SameEnd(h, w, st, catalog, CompactConfigured(h, st, catalog, Sequence(st)).storage)
    ensures EnsureCovering(h, st, catalog, Sequence(st)).storage == st
  {
    CheckpointedCompacts(h, w, st, catalog);
    CheckpointedFinishes(h, w, st, catalog);
    EndByPhase(h, st, CompactConfigured(h, st, catalog, Sequence(st)).storage, catalog, w.identified);
  }

  /** What a crash inside one phase leaves is again a stage of the plan, with the
      same end. */
  lemma PhaseCrash(h: Hash, w: World, st: Storage, catalog: seq<FamilyIdentity>, x: Storage)
    requires Stage(h, w, st, catalog) && PhaseLeaves(h, st, catalog, w.identified, x)
    ensures SameEnd(h, w, st, catalog, x)
  {
    match st.intent {
      case None =>
      case Some(Intent(Planned, _)) => PlannedCrash(h, w, st, catalog);
      case Some(Intent(Applied, _)) => AppliedCrash(h, w, st, catalog);
      case Some(Intent(Checkpointed, _)) => CheckpointedCrash(h, w, st, catalog);
    }
  }

  lemma PhaseAdvances(h: Hash, w: World, st: Storage, catalog: seq<FamilyIdentity>)
    requires Stage(h, w, st, catalog)
    ensures RunPhase(h, st, catalog, w.identified, None, None).more.Ok? <==>
              (CheckpointedStage(h, w, st, catalog) ==> Releases(st))
    ensures Stage(h, w, RunPhase(h, st, catalog, w.identified, None, None).storage, catalog)
  {
    match st.intent {
      case None =>
      case Some(Intent(Planned, _)) => PlannedAdvances(h, w, st, catalog);
      case Some(Intent(Applied, _)) => AppliedAdvances(h, w, st, catalog);
      case Some(Intent(Checkpointed, _)) => CheckpointedFinishes(h, w, st, catalog);
    }
  }

  /** ... and so is what a crash anywhere in the run leaves. */
  lemma {:induction false} RunCrash(h: Hash, w: World, st: Storage, catalog: seq<FamilyIdentity>, x: Storage)
    requires Stage(h, w, st, catalog) && RunLeaves(h, st, catalog, w.identified, x)
    ensures SameEnd(h, w, st, catalog, x)
    decreases Rank(st.intent)
  {
    if PhaseLeaves(h, st, catalog, w.identified, x) {
      PhaseCrash(h, w, st, catalog, x);
    } else {
      PhaseDescends(h, st, catalog, w.identified, None, None);
      PhaseAdvances(h, w, st, catalog);
      PhaseKeepsFault(h, st, catalog, w.identified);
      EndAfterPhase(h, st, catalog, w.identified);
      RunCrash(h, w, RunPhase(h, st, catalog, w.identified, None, None).storage, catalog, x);
    }
  }

  // ---- What the completed run leaves ----

  /** No intent, no slot, and no history beyond the policy's budget. */
  ghost predicate Finished(h: Hash, w: World, catalog: seq<FamilyIdentity>, end: Resumed) {
    && end.result == Ok(()) && end.storage.intent.None? && end.storage.slot.None?
    && Ready(h, w, end.storage, catalog) && Covered(h, end.storage)
    && |end.storage.versioned| <= end.storage.policy.value.maximumLive
  }

  /** ... or, in a mirrored store, everything but that: the plan is applied and
      covered, and waits for the mirror. */
  ghost predicate Stopped(h: Hash, w: World, catalog: seq<FamilyIdentity>, end: Resumed) {
    && CheckpointedStage(h, w, end.storage, catalog) && !Releases(end.storage)
    && end.result == Err(Unacknowledged(end.storage))
  }

  ghost predicate Ended(h: Hash, w: World, catalog: seq<FamilyIdentity>, releases: bool, end: Resumed) {
    if releases then Finished(h, w, catalog, end) else Stopped(h, w, catalog, end)
  }

  /** The end moved history and the intent only, and while the intent stands it
      released nothing. */
  ghost predicate OnlyEnds(st: Storage, end: Storage) {
    && OnlyHistory(st.(intent := end.intent), end)
    && (end.intent.Some? ==> end.versioned == st.versioned && end.outbox == st.outbox)
  }

  lemma OnlyEndsThrough(a: Storage, b: Storage, end: Storage)
    requires OnlyCheckpoints(a.(intent := b.intent), b) && OnlyEnds(b, end)
    ensures OnlyEnds(a, end)
  {
  }

  /** The next phase ends as this one does. */
  lemma EndedLater(h: Hash, w: World, st: Storage, next: Storage, catalog: seq<FamilyIdentity>, releases: bool,
                   base: Storage)
    requires var p := RunPhase(h, st, catalog, w.identified, None, None);
             p.more == Ok(true) && p.fault == None && p.storage == next
    requires Ended(h, w, catalog, releases, End(h, next, catalog, w.identified))
    requires OnlyCheckpoints(base.(intent := next.intent), next)
    requires OnlyEnds(next, End(h, next, catalog, w.identified).storage)
    ensures Ended(h, w, catalog, releases, End(h, st, catalog, w.identified))
    ensures OnlyEnds(base, End(h, st, catalog, w.identified).storage)
  {
    EndAfterPhase(h, st, catalog, w.identified);
    OnlyEndsThrough(base, next, End(h, next, catalog, w.identified).storage);
  }

  lemma CheckpointedCompletes(h: Hash, w: World, st: Storage, catalog: seq<FamilyIdentity>)
    requires CheckpointedStage(h, w, st, catalog)
    ensures Ended(h, w, catalog, Releases(st), End(h, st, catalog, w.identified))
    ensures OnlyEnds(st, End(h, st, catalog, w.identified).storage)
  {
    CheckpointedCompacts(h, w, st, catalog);
    CheckpointedFinishes(h, w, st, catalog);
    ReadyIgnoresSlot(h, w, CompactConfigured(h, st, catalog, Sequence(st)).storage, catalog, None, None);
  }

  lemma AppliedCompletes(h: Hash, w: World, st: Storage, catalog: seq<FamilyIdentity>)
    requires AppliedStage(h, w, st, catalog)
    ensures Ended(h, w, catalog, Releases(st), End(h, st, catalog, w.identified))
    ensures OnlyEnds(st, End(h, st, catalog, w.identified).storage)
  {
    var next := RunPhase(h, st, catalog, w.identified, None, None).storage;
    AppliedLeaves(h, w, st, catalog);
    CheckpointedCompletes(h, w, next, catalog);
    EndedLater(h, w, st, next, catalog, Releases(st), st);
  }

  lemma AppliedLeaves(h: Hash, w: World, st: Storage, catalog: seq<FamilyIdentity>)
    requires AppliedStage(h, w, st, catalog)
    ensures var p := RunPhase(h, st, catalog, w.identified, None, None);
            && p.more == Ok(true) && p.fault == None && CheckpointedStage(h, w, p.storage, catalog)
            && OnlyCheckpoints(st.(intent := p.storage.intent), p.storage) && Releases(p.storage) == Releases(st)
  {
    AppliedCovers(h, w, st, catalog);
    AppliedAdvances(h, w, st, catalog);
  }

  /** What the plan's entries leave, before anything is released. */
  function Applying(st: Storage): Storage
    requires st.slot.Some?
  {
    AppendEntries(st, st.slot.value.entries).(slot := None)
  }

  /** A parked plan applies each planned operation once, covers them, and finishes if
      and only if it may release them; apart from history the store is the one the
      plan's entries leave. */
  lemma PlanCompletes(h: Hash, w: World, st: Storage, catalog: seq<FamilyIdentity>)
    requires PlannedStage(h, w, st, catalog)
    ensures Applying(st).policy == st.policy
    ensures Ended(h, w, catalog, Releases(Applying(st)), End(h, st, catalog, w.identified))
    ensures OnlyEnds(Applying(st), End(h, st, catalog, w.identified).storage)
  {
    var next := RunPhase(h, st, catalog, w.identified, None, None).storage;
    PlannedLeaves(h, w, st, catalog);
    AppliedCompletes(h, w, next, catalog);
    EndedLater(h, w, st, next, catalog, Releases(next), Applying(st));
  }

  lemma PlannedLeaves(h: Hash, w: World, st: Storage, catalog: seq<FamilyIdentity>)
    requires PlannedStage(h, w, st, catalog)
    ensures var p := RunPhase(h, st, catalog, w.identified, None, None);
            && p.more == Ok(true) && p.fault == None && AppliedStage(h, w, p.storage, catalog)
            && p.storage == Applying(st).(intent := p.storage.intent)
            && Applying(st).policy == st.policy && Releases(p.storage) == Releases(Applying(st))
  {
    PlannedAdvances(h, w, st, catalog);
    PhaseKeepsFault(h, st, catalog, w.identified);
    AppendMeaning(st, st.slot.value.entries);
  }

  lemma ParkedIsPlanned(h: Hash, w: World, st: Storage, catalog: seq<FamilyIdentity>, inventory: seq<FamilyIdentity>,
                        s: Session)
    requires Ready(h, w, st, catalog) && st.slot.None? && st.intent.None?
    requires SessionOk(h, w, st, inventory, s) && s.entries != [] && Collisionless(h, Shadow(st, s), catalog)
    ensures ParkCompaction(st, Some(s), None) ==
            Parked(Ok(true), st.(slot := Some(Group(s)), intent := Some(Intent(Planned, None))), None)
    ensures PlannedStage(h, w, ParkCompaction(st, Some(s), None).storage, catalog)
  {
    var slot, intent := Some(Group(s)), Some(Intent(Planned, None));
    SessionGroupOk(h, w, st, inventory, s);
    ReadyIgnoresSlot(h, w, st, catalog, slot, intent);
    AppendIgnoresIntent(st, s.entries, slot, intent);
    CutIgnoresSlot(h, Shadow(st, s), catalog, slot, intent);
  }

  lemma {:induction false} AppendIgnoresIntent(st: Storage, entries: seq<Entry>, slot: Option<StagedGroup>,
                                               intent: Option<Intent>)
    ensures AppendEntries(st.(slot := slot, intent := intent), entries) ==
              AppendEntries(st, entries).(slot := slot, intent := intent)
  {
    if entries != [] { AppendIgnoresIntent(st, entries[..|entries| - 1], slot, intent); }
  }

  /** An armed interruption stops the run in a state a crash could have left. */
  lemma {:induction false} FaultIsCrash(h: Hash, st: Storage, catalog: seq<FamilyIdentity>, directory: Directory,
                                        fault: Option<Fault>)
    ensures RunLeaves(h, st, catalog, directory, Resume(h, st, catalog, directory, None, fault).storage)
    decreases Rank(st.intent)
  {
    var p := RunPhase(h, st, catalog, directory, None, fault);
    FaultOnePhase(h, st, catalog, directory, fault);
    if p.more == Ok(true) {
      PhaseDescends(h, st, catalog, directory, None, fault);
      FaultIsCrash(h, p.storage, catalog, directory, p.fault);
    }
  }

  lemma FaultOnePhase(h: Hash, st: Storage, catalog: seq<FamilyIdentity>, directory: Directory, fault: Option<Fault>)
    ensures var p, q :=
            RunPhase(h, st, catalog, directory, None, fault), RunPhase(h, st, catalog, directory, None, None);
            && (p.more == Ok(true) ==> q.more == Ok(true) && p.storage == q.storage)
            && (p.more != Ok(true) ==> PhaseLeaves(h, st, catalog, directory, p.storage))
  {
  }

  // ---- Opening a store ----

  /** A plain open lists the inventory, and refuses while recovery is pending. */
  function Open(st: Storage): Result<seq<FamilyIdentity>> {
    if st.intent.Some? then Err(CompactionRecoveryRequired) else Ok(CatalogRows(st.registrations))
  }

  /** A recovering open resumes the plan, then compacts to the policy's budget. */
  function OpenRecovering(h: Hash, st: Storage, directory: Directory): Outcome<seq<FamilyIdentity>> {
    var catalog := CatalogRows(st.registrations);
    var resumed := Resume(h, st, catalog, directory, None, None);
    if resumed.result.Err? then Outcome(Err(resumed.result.error), resumed.storage)
    else if resumed.storage.policy.None? then Outcome(Ok(catalog), resumed.storage)
    else
      var compacted := CompactConfigured(h, resumed.storage, catalog, Sequence(resumed.storage));
      if compacted.result.Err? then Outcome(Err(compacted.result.error), compacted.storage)
      else Outcome(Ok(catalog), compacted.storage)
  }

  /** A recovering open of a plan that must wait reports why, and leaves it waiting. */
  lemma OpenWaits(h: Hash, w: World, x: Storage)
    requires Stopped(h, w, CatalogRows(x.registrations), End(h, x, CatalogRows(x.registrations), w.identified))
    ensures var end := End(h, x, CatalogRows(x.registrations), w.identified).storage;
            OpenRecovering(h, x, w.identified) == Outcome(Err(Unacknowledged(end)), end)
  {
  }

  lemma FinishedCompacts(h: Hash, w: World, st: Storage, catalog: seq<FamilyIdentity>)
    requires Ready(h, w, st, catalog) && |st.versioned| <= st.policy.value.maximumLive
    ensures var out := CompactConfigured(h, st, catalog, Sequence(st)); out.result.Ok? && out.storage == st
  {
  }

  lemma OpensAs(h: Hash, w: World, x: Storage)
    requires Finished(h, w, CatalogRows(x.registrations), End(h, x, CatalogRows(x.registrations), w.identified))
    ensures OpenRecovering(h, x, w.identified) ==
            Outcome(Ok(CatalogRows(x.registrations)), End(h, x, CatalogRows(x.registrations), w.identified).storage)
  {
    FinishedCompacts(h, w, End(h, x, CatalogRows(x.registrations), w.identified).storage, CatalogRows(x.registrations));
  }

  /** What decides whether a stage of a plan finishes. */
  predicate StageReleases(st: Storage)
    requires st.policy.Some?
  {
    if st.intent.Some? && st.intent.value.phase.Planned? && st.slot.Some?
    then (AppendMeaning(st, st.slot.value.entries); Releases(Applying(st)))
    else Releases(st)
  }

  lemma StageCompletes(h: Hash, w: World, st: Storage, catalog: seq<FamilyIdentity>)
    requires Stage(h, w, st, catalog) && st.intent.Some?
    ensures st.policy.Some? && Ended(h, w, catalog, StageReleases(st), End(h, st, catalog, w.identified))
  {
    match st.intent.value.phase {
      case Planned => PlanCompletes(h, w, st, catalog);
      case Applied => AppliedCompletes(h, w, st, catalog);
      case Checkpointed => CheckpointedCompletes(h, w, st, catalog);
    }
  }

  // ---- The inventory a run's checkpoint records ----

  /** The inventory the latest checkpoint recorded. */
  function StoredFamilies(st: Storage): seq<FamilyIdentity> {
    if st.latestCheckpoint.Some? && st.latestCheckpoint.value in st.checkpoints
    then st.checkpoints[st.latestCheckpoint.value].inventory.families else []
  }

  lemma CutRecords(h: Hash, st: Storage, catalog: seq<FamilyIdentity>)
    ensures CutCheckpoint(h, st, catalog).Ok? ==> StoredFamilies(WriteCheckpoint(h, st, catalog).value) == catalog
  {
  }

  lemma CompactRecords(h: Hash, w: World, st: Storage, catalog: seq<FamilyIdentity>)
    requires CheckpointedStage(h, w, st, catalog)
    ensures StoredFamilies(CompactConfigured(h, st, catalog, Sequence(st)).storage) == StoredFamilies(st)
  {
    var k := LatestCheckpoint(h, st).value.value;
    if |st.versioned| > st.policy.value.maximumLive {
      CoveredCompacts(h, st, catalog, k);
      assert st.checkpoints[k.metadata.sequence] == k.metadata;
    }
  }

  lemma CheckpointedRecords(h: Hash, w: World, st: Storage, catalog: seq<FamilyIdentity>)
    requires CheckpointedStage(h, w, st, catalog)
    ensures StoredFamilies(End(h, st, catalog, w.identified).storage) == StoredFamilies(st)
  {
    CompactRecords(h, w, st, catalog);
    CheckpointedFinishes(h, w, st, catalog);
  }

  lemma CoverRecords(h: Hash, w: World, st: Storage, catalog: seq<FamilyIdentity>)
    requires Ready(h, w, st, catalog) && !Covered(h, st) && CoverPlan(h, st, catalog, Sequence(st)).result.Ok?
    ensures StoredFamilies(CoverPlan(h, st, catalog, Sequence(st)).storage) == catalog
  {
    CutRecords(h, st, catalog);
    UncoveredWrites(h, st, catalog, LatestCheckpoint(h, st).value);
  }

  lemma UncoveredWrites(h: Hash, st: Storage, catalog: seq<FamilyIdentity>, latest: Option<Checkpoint>)
    requires LatestCheckpoint(h, st) == Ok(latest) && (latest.Some? ==> latest.value.metadata.last < Sequence(st))
    requires CoverPlan(h, st, catalog, Sequence(st)).result.Ok?
    ensures WriteCheckpoint(h, st, catalog) == Ok(CoverPlan(h, st, catalog, Sequence(st)).storage)
  {
    UncoveredIs(h, st, catalog, latest, WriteCheckpoint(h, st, catalog), Sequence(st));
    PublishedIs(h, st, WriteCheckpoint(h, st, catalog), Sequence(st));
  }

  lemma UncoveredIs(h: Hash, st: Storage, catalog: seq<FamilyIdentity>, latest: Option<Checkpoint>,
                    written: Result<Storage>, final: nat)
    requires LatestCheckpoint(h, st) == Ok(latest) && (latest.Some? ==> latest.value.metadata.last < final)
    requires written == WriteCheckpoint(h, st, catalog)
    ensures CoverPlan(h, st, catalog, final) == PublishedCovers(h, st, written, final)
  {
  }

  lemma PublishedIs(h: Hash, st: Storage, written: Result<Storage>, final: nat)
    requires PublishedCovers(h, st, written, final).result.Ok?
    ensures written == Ok(PublishedCovers(h, st, written, final).storage)
  {
  }

  lemma AppliedRecords(h: Hash, w: World, st: Storage, catalog: seq<FamilyIdentity>)
    requires AppliedStage(h, w, st, catalog) && !Covered(h, st)
    ensures StoredFamilies(End(h, st, catalog, w.identified).storage) == catalog
  {
    AppliedCovers(h, w, st, catalog);
    AppliedAdvances(h, w, st, catalog);
    CoverRecords(h, w, st, catalog);
    var p := RunPhase(h, st, catalog, w.identified, None, None);
    CheckpointedRecords(h, w, p.storage, catalog);
    EndAfterPhase(h, st, catalog, w.identified);
  }

  // ---- Where a plan cannot finish ----

  /** A discard after the park leaves a plan nothing can finish: its intent stays
      planned, every resume fails and changes nothing. */
  lemma DiscardStrandsPlan(h: Hash, st: Storage, catalog: seq<FamilyIdentity>, directory: Directory)
    requires st.slot.Some? && st.slot.value.entries != [] && st.intent == Some(Intent(Planned, None))
    ensures var after := Discard(st).storage;
            && after.intent == Some(Intent(Planned, None))
            && End(h, after, catalog, directory) == Resumed(Err(StagingSlotEmpty), after, None, [])
  {
  }

  /** A commit after the park strands it too: the group's base has moved. */
  lemma CommitStrandsPlan(h: Hash, st: Storage, catalog: seq<FamilyIdentity>, directory: Directory, g: StagedGroup)
    requires st.slot == Some(g) && g.entries != [] && g.entries[0].sequence != Sequence(st) + 1
    requires st.intent == Some(Intent(Planned, None))
    ensures End(h, st, catalog, directory) == Resumed(Err(StagingBaseMoved(Sequence(st))), st, None, [])
  {
    MovedStoreRefusesGroup(h, st, directory, g);
  }
}
