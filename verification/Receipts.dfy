// What the operations on history, the staging seam and an import report, against the
// store they leave.
module Receipts {
  import opened ByteStrings
  import opened Errors
  import opened Versioning
  import opened CanonicalViews
  import opened Checkpoints
  import opened Catalogs
  import opened Stores
  import opened Invariants
  import opened Histories
  import opened Retention
  import opened Writes
  import opened Rebuilding
  import opened Staging
  import opened StagingLaws
  import opened Recovery
  import opened Imports
  import opened Ledgers
  import opened Lifetimes
  import opened Openings

  // ---- Compaction ----

  /** A compaction that succeeds reports what left the log, what stays in it, and the
      checkpoint the store now starts from. */
  lemma CompactReports(h: Hash, w: World, st: Storage, catalog: seq<FamilyIdentity>, current: nat, maximum: nat,
                       ack: Acknowledgement)
    requires Inv(h, w, st, catalog) && CompactClear(h, st, catalog, current, maximum, ack)
    requires CompactHistory(h, st, catalog, current, maximum, ack).result.Ok?
    ensures var out := CompactHistory(h, st, catalog, current, maximum, ack);
            && out.result.value.retained == |out.storage.versioned|
            && out.result.value.compacted + |out.storage.versioned| == |st.versioned|
            && out.result.value.checkpoint == out.storage.latestCheckpoint
            && (|st.versioned| <= maximum ==> out.storage == st)
  {
    CompactValid(h, st, catalog, current, maximum, ack);
    if |st.versioned| <= maximum {
      LatestNumber(h, st, LatestCheckpoint(h, st).value);
      NothingReports(h, st, catalog, current, maximum, ack);
    } else {
      var covering := EnsureCovering(h, st, catalog, current);
      CoveringPreserves(h, w, st, catalog, current);
      CoveringMovesCheckpoints(h, st, catalog, current);
      CompactsOver(h, st, catalog, current, maximum, ack, covering);
      TrimmedReports(h, w, covering, catalog, |st.versioned|, ack);
    }
  }

  lemma CompactValid(h: Hash, st: Storage, catalog: seq<FamilyIdentity>, current: nat, maximum: nat,
                     ack: Acknowledgement)
    requires CompactHistory(h, st, catalog, current, maximum, ack).result.Ok?
    ensures ValidateAcknowledgement(st, ack).Ok?
  {
  }

  lemma NothingReports(h: Hash, st: Storage, catalog: seq<FamilyIdentity>, current: nat, maximum: nat,
                       ack: Acknowledgement)
    requires ValidateAcknowledgement(st, ack).Ok? && |st.versioned| <= maximum && LatestCheckpoint(h, st).Ok?
    ensures CompactHistory(h, st, catalog, current, maximum, ack) ==
              Outcome(Ok(Compaction(0, |st.versioned|, CheckpointSequence(LatestCheckpoint(h, st).value))), st)
  {
  }

  lemma LatestNumber(h: Hash, st: Storage, latest: Option<Checkpoint>)
    requires LatestCheckpoint(h, st) == Ok(latest) && CoversOk(st, latest)
    ensures CheckpointSequence(latest) == st.latestCheckpoint
  {
    LatestRow(h, st, latest);
  }

  lemma TrimmedReports(h: Hash, w: World, covering: Outcome<Checkpoint>, catalog: seq<FamilyIdentity>, before: nat,
                       ack: Acknowledgement)
    requires Inv(h, w, covering.storage, catalog) && before == |covering.storage.versioned|
    requires covering.result.Ok? ==> LatestCheckpoint(h, covering.storage) == Ok(Some(covering.result.value))
    ensures var out := TrimOver(h, covering, before, ack);
            out.result.Ok? ==>
              && out.result.value.retained == |out.storage.versioned|
              && out.result.value.compacted + |out.storage.versioned| == before
              && out.result.value.checkpoint == out.storage.latestCheckpoint
  {
    if covering.result.Ok? {
      TrimPreserves(h, w, covering.storage, catalog);
      LatestNumber(h, covering.storage, Some(covering.result.value));
    }
  }

  lemma ValidMeaning(st: Storage, ack: Acknowledgement)
    requires MirrorOk(st)
    ensures ValidateAcknowledgement(st, ack).Ok? <==>
            st.policy.Some? && (ack.MirrorAcknowledged? <==> st.policy.value.topology.Mirror?)
  {
    if !Mirrored(st) { NothingQueuedLocally(st); }
  }

  /** With no session engaged a compaction succeeds if and only if the caller's
      acknowledgement is of the store's own kind, and the log is within the budget
      asked for or, in a mirrored store, both that acknowledgement and the shipped
      cursor reach the last entry. */
  lemma CompactionVerdict(h: Hash, w: World, st: Storage, catalog: seq<FamilyIdentity>, maximum: nat,
                          ack: Acknowledgement)
    requires Inv(h, w, st, catalog) && MirrorOk(st) && st.policy.Some? && Complete(st)
    requires CompactClear(h, st, catalog, Sequence(st), maximum, ack)
    ensures CompactHistory(h, st, catalog, Sequence(st), maximum, ack).result.Ok? <==>
            && (ack.MirrorAcknowledged? <==> st.policy.value.topology.Mirror?)
            && (|st.versioned| > maximum && ack.MirrorAcknowledged? ==>
                  ack.head.sequence >= Sequence(st) && CursorSequence(st) >= Sequence(st))
  {
    ValidMeaning(st, ack);
    if |st.versioned| > maximum && ValidateAcknowledgement(st, ack).Ok? {
      var covering := EnsureCovering(h, st, catalog, Sequence(st));
      CoverNow(h, w, st, catalog);
      TrimsAll(h, w, covering, catalog, |st.versioned|, ack);
      CompactsOver(h, st, catalog, Sequence(st), maximum, ack, covering);
    } else {
      CompactsWithin(h, st, catalog, Sequence(st), maximum, ack);
    }
  }

  lemma CompactsWithin(h: Hash, st: Storage, catalog: seq<FamilyIdentity>, current: nat, maximum: nat,
                       ack: Acknowledgement)
    requires ValidateAcknowledgement(st, ack).Err? || |st.versioned| <= maximum
    requires LatestCheckpoint(h, st).Ok?
    ensures CompactHistory(h, st, catalog, current, maximum, ack).result.Ok? <==> ValidateAcknowledgement(st, ack).Ok?
  {
  }

  lemma CompactsOver(h: Hash, st: Storage, catalog: seq<FamilyIdentity>, current: nat, maximum: nat,
                     ack: Acknowledgement, covering: Outcome<Checkpoint>)
    requires ValidateAcknowledgement(st, ack).Ok? && |st.versioned| > maximum
    requires covering == EnsureCovering(h, st, catalog, current)
    ensures CompactHistory(h, st, catalog, current, maximum, ack) == TrimOver(h, covering, |st.versioned|, ack)
  {
  }

  /** An acknowledgement reports where the cursor stands: advanced to the head it was
      given, or unchanged where it was. */
  lemma AcknowledgeReports(st: Storage, head: MirrorHead)
    requires Acknowledge(st, head).result.Ok?
    ensures var out := Acknowledge(st, head);
            match out.result.value
            case Advanced(at) =>
              at == head && out.storage.cursor == Some(head) && (st.cursor.Some? ==> head.sequence > CursorSequence(st))
            case Unchanged(at) => st.cursor == Some(at) && head.sequence <= at.sequence && out.storage == st
  {
  }

  // ---- Rebuild ----

  /** A rebuild reports the rows of the view, the touched keys it cleared, the entries
      it folded over the checkpoint, and the digest of the view. */
  lemma RebuildReports(h: Hash, w: World, st: Storage, catalog: seq<FamilyIdentity>, directory: Directory)
    requires Inv(h, w, st, catalog) && Rebuild(h, st, catalog, directory).result.Ok?
    ensures var r, view := Rebuild(h, st, catalog, directory).result.value, CurrentView(h, st).value;
            && r.rows == |view.rows| && r.cleared == |view.touched - view.rows.Keys|
            && r.viewDigest == h(ViewItem(view.rows))
            && r.folded == Sequence(st) - BaseOf(LatestCheckpoint(h, st).value).after
  {
    var c := LatestCheckpoint(h, st).value;
    RebuildIs(h, st, catalog, directory, c);
    CountsRows(ViewOver(h, st, c).value, catalog);
    SuffixCount(st, c);
    RebuildOverReports(h, st, catalog, directory, c);
  }

  lemma SuffixCount(st: Storage, c: Option<Checkpoint>)
    requires Sequenced(st) && CoversOk(st, c) && Complete(st)
    ensures |EntriesFrom(st.versioned, BaseOf(c).after + 1)| == Sequence(st) - BaseOf(c).after
  {
    FromConsecutive(st.versioned, EntryRowSequence, BaseOf(c).after + 1, Sequence(st));
  }

  lemma RebuildOverReports(h: Hash, st: Storage, catalog: seq<FamilyIdentity>, directory: Directory,
                           c: Option<Checkpoint>)
    requires RebuildOver(h, st, catalog, directory, c).result.Ok?
    ensures ViewOver(h, st, c).Ok? && IntoRows(ViewOver(h, st, c).value, catalog).Ok?
    ensures var r, view := RebuildOver(h, st, catalog, directory, c).result.value, ViewOver(h, st, c).value;
            && r.rows == |IntoRows(view, catalog).value.rows| && r.cleared == |IntoRows(view, catalog).value.cleared|
            && r.viewDigest == h(ViewItem(view.rows)) && r.folded == |EntriesFrom(st.versioned, BaseOf(c).after + 1)|
  {
  }

  lemma RebuildIs(h: Hash, st: Storage, catalog: seq<FamilyIdentity>, directory: Directory, c: Option<Checkpoint>)
    requires LatestCheckpoint(h, st) == Ok(c) && Rebuild(h, st, catalog, directory).result.Ok?
    ensures RebuildOver(h, st, catalog, directory, c) == Rebuild(h, st, catalog, directory)
    ensures st.policy.Some? && Complete(st)
  {
  }

  lemma CountsRows(view: View, catalog: seq<FamilyIdentity>)
    requires SelfDescribing(view)
    ensures IntoRows(view, catalog).Ok?
    ensures var m := IntoRows(view, catalog).value;
            |m.rows| == |view.rows| && |m.cleared| == |view.touched - view.rows.Keys|
  {
    RowsForSelfDescribing(view, catalog, InViewOrder(view.touched - view.rows.Keys));
    RowsForSelfDescribing(view, catalog, InViewOrder(view.rows.Keys));
    assert |view.rows| == |view.rows.Keys|;
  }

  // ---- The staging seam ----

  /** A session begins only on a versioned store, with no other session open and
      nothing parked; a compaction plan, also only with no compaction pending. */
  lemma BeginVerdict(h: Hash, st: Storage, catalog: seq<FamilyIdentity>, engaged: Option<Session>)
    ensures Begin(h, st, catalog, engaged).Ok? <==> st.policy.Some? && engaged.None? && st.slot.None?
    ensures BeginCompaction(h, st, catalog, engaged).Ok? <==> Begin(h, st, catalog, engaged).Ok? && st.intent.None?
  {
  }

  /** One parked group, three receipts: the park names its digest, its size and the
      commits it will be, a materialize in place answers with the same digest and size
      and with the cursors and head it leaves, and a discard with the same digest and
      size, leaving the store as it was before the park. */
  lemma GroupReceipts(h: Hash, w: World, st: Storage, catalog: seq<FamilyIdentity>, s: Session)
    requires Inv(h, w, st, catalog) && SessionOk(h, w, st, catalog, s) && s.entries != [] && st.slot.None?
    ensures var parked := Park(st, Some(s));
            && parked.result.Ok? && parked.result.value.Some? && parked.storage.slot.Some?
            && var receipt := parked.result.value.value;
               var landed, discarded :=
                 Materialize(h, parked.storage, w.identified, false), Discard(parked.storage);
               && receipt.entries == |s.entries| && receipt.first == Sequence(st) + 1
               && receipt.last == Sequence(st) + |s.entries|
               && landed.result == Ok(MaterializeReceipt(receipt.head, receipt.last, Snapshot(st) + |s.entries|,
                                                         receipt.entries))
               && landed.storage.head == Some(receipt.head) && landed.storage.sequence == Some(receipt.last)
               && landed.storage.snapshot == Some(Snapshot(st) + |s.entries|)
               && discarded == Outcome(Ok(DiscardReceipt(receipt.head, receipt.entries)), st)
  {
    var g := Group(s);
    SessionGroupOk(h, w, st, catalog, s);
    SessionParks(h, w, st, catalog, s);
    var parked := Park(st, Some(s)).storage;
    VerifiedStarts(h, s.entries, st.head, Sequence(st), Snapshot(st));
    MaterializeIsAppend(h, w, parked, g);
    AppendsCursors(parked, s.entries);
    assert parked.(slot := None) == st;
  }

  lemma SessionParks(h: Hash, w: World, st: Storage, catalog: seq<FamilyIdentity>, s: Session)
    requires SessionOk(h, w, st, catalog, s) && s.entries != [] && st.slot.None?
    ensures Park(st, Some(s)) == Outcome(Ok(Some(StageReceiptOf(Group(s)))), st.(slot := Some(Group(s))))
    ensures GroupOk(h, w, st.(slot := Some(Group(s))), Group(s))
  {
    SessionGroupOk(h, w, st, catalog, s);
  }

  lemma AppendsCursors(st: Storage, entries: seq<Entry>)
    requires entries != []
    ensures var st', last := AppendEntries(st, entries), entries[|entries| - 1];
            st'.head == Some(last.digest) && st'.sequence == Some(last.sequence) && st'.snapshot == Some(last.snapshot)
  {
  }

  // ---- The compaction machine ----

  /** A plan in place announces its own changes once, however many phases follow. */
  lemma PlanAnnouncesOnce(h: Hash, w: World, st: Storage, catalog: seq<FamilyIdentity>)
    requires PlannedStage(h, w, st, catalog)
    ensures End(h, st, catalog, w.identified).deltas == Announce(st.slot.value.preImages, st.slot.value.entries)
  {
    PlannedAdvances(h, w, st, catalog);
    MaterializeIsAppend(h, w, st, st.slot.value);
    PhaseKeepsFault(h, st, catalog, w.identified);
    AppliedQuiet(h, w, RunPhase(h, st, catalog, w.identified, None, None).storage, catalog);
    PlannedDeltas(h, st, catalog, w.identified);
  }

  lemma CheckpointedQuiet(h: Hash, w: World, st: Storage, catalog: seq<FamilyIdentity>)
    requires CheckpointedStage(h, w, st, catalog)
    ensures End(h, st, catalog, w.identified).deltas == []
  {
    CheckpointedFinishes(h, w, st, catalog);
  }

  lemma AppliedQuiet(h: Hash, w: World, st: Storage, catalog: seq<FamilyIdentity>)
    requires AppliedStage(h, w, st, catalog)
    ensures End(h, st, catalog, w.identified).deltas == []
  {
    var next := RunPhase(h, st, catalog, w.identified, None, None).storage;
    AppliedAdvances(h, w, st, catalog);
    CheckpointedQuiet(h, w, next, catalog);
    NothingAnnounced(h, st, next, catalog, w.identified);
  }

  lemma NothingAnnounced(h: Hash, st: Storage, next: Storage, catalog: seq<FamilyIdentity>, directory: Directory)
    requires RunPhase(h, st, catalog, directory, None, None) == Phased(Ok(true), next, None, [])
    requires End(h, next, catalog, directory).deltas == []
    ensures End(h, st, catalog, directory).deltas == []
  {
  }

  lemma PlannedDeltas(h: Hash, st: Storage, catalog: seq<FamilyIdentity>, directory: Directory)
    requires st.intent == Some(Intent(Planned, None)) && Materialize(h, st, directory, false).result.Ok?
    requires var p := RunPhase(h, st, catalog, directory, None, None);
             p.fault.None? && p.more == Ok(true) && End(h, p.storage, catalog, directory).deltas == []
    ensures End(h, st, catalog, directory).deltas == Materialize(h, st, directory, false).deltas
  {
  }

  /** Phases before the armed one run as they would, and keep it armed. */
  lemma FaultWaits(h: Hash, st: Storage, catalog: seq<FamilyIdentity>, directory: Directory, fault: Fault)
    requires st.intent.Some? && RunPhase(h, st, catalog, directory, None, None).more == Ok(true)
    requires match st.intent.value.phase
             case Planned => fault != AfterRetractionsApplied
             case Applied => fault != AfterCheckpointPublished
             case Checkpointed => false
    ensures var p := RunPhase(h, st, catalog, directory, None, Some(fault));
            p.more == Ok(true) && p.fault == Some(fault)
                && p.storage == RunPhase(h, st, catalog, directory, None, None).storage
  {
  }

  /** The phase the interruption is armed for does its work, and stops. */
  lemma FaultFiresNow(h: Hash, st: Storage, catalog: seq<FamilyIdentity>, directory: Directory, fault: Fault)
    requires st.intent.Some? && RunPhase(h, st, catalog, directory, None, None).more.Ok?
    requires match st.intent.value.phase
             case Planned => fault == AfterRetractionsApplied
             case Applied => fault == AfterCheckpointPublished
             case Checkpointed => fault == AfterHistoryFloorAdvanced
    ensures var p := RunPhase(h, st, catalog, directory, None, Some(fault));
            p.more == Err(CompactionInterrupted) && p.fault.None? && p.storage.intent.Some?
  {
    if st.intent.value.phase.Checkpointed? {
      MaintainMovesHistory(h, st, catalog, Sequence(st));
      if st.policy.Some? { MaintainIs(h, st, catalog, Sequence(st)); }
    }
  }

  lemma StopsHere(h: Hash, st: Storage, catalog: seq<FamilyIdentity>, directory: Directory, fault: Fault)
    requires var p := RunPhase(h, st, catalog, directory, None, Some(fault));
             p.more == Err(CompactionInterrupted) && p.fault.None? && p.storage.intent.Some?
    ensures var out := Resume(h, st, catalog, directory, None, Some(fault));
            out.result == Err(CompactionInterrupted) && out.fault.None? && out.storage.intent.Some?
  {
  }

  /** An interruption armed for a phase of a plan that would complete always fires, once:
      the run stops with its intent still pending, and resuming what it left reaches the
      end the plan would have reached undisturbed. */
  lemma FaultFires(h: Hash, w: World, st: Storage, catalog: seq<FamilyIdentity>, fault: Fault)
    requires PlannedStage(h, w, st, catalog) && fault != AfterPlanPersisted
    requires End(h, st, catalog, w.identified).result.Ok?
    ensures var out := Resume(h, st, catalog, w.identified, None, Some(fault));
            && out.result == Err(CompactionInterrupted) && out.fault.None? && out.storage.intent.Some?
            && End(h, out.storage, catalog, w.identified).storage == End(h, st, catalog, w.identified).storage
  {
    var none: Option<Fault> := None;
    FaultIsCrash(h, st, catalog, w.identified, Some(fault));
    RunCrash(h, w, st, catalog, Resume(h, st, catalog, w.identified, None, Some(fault)).storage);
    PlannedAdvances(h, w, st, catalog);
    if fault == AfterRetractionsApplied {
      FaultFiresNow(h, st, catalog, w.identified, fault);
      StopsHere(h, st, catalog, w.identified, fault);
    } else {
      var applied := RunPhase(h, st, catalog, w.identified, None, none).storage;
      FaultWaits(h, st, catalog, w.identified, fault);
      ResumesLater(h, st, applied, catalog, w.identified, fault);
      AppliedAdvances(h, w, applied, catalog);
      PhaseKeepsFault(h, st, catalog, w.identified);
      EndAfterPhase(h, st, catalog, w.identified);
      AppliedFires(h, w, applied, catalog, fault);
    }
  }

  lemma ResumesLater(h: Hash, st: Storage, next: Storage, catalog: seq<FamilyIdentity>, directory: Directory,
                     fault: Fault)
    requires var p := RunPhase(h, st, catalog, directory, None, Some(fault));
             p.more == Ok(true) && p.fault == Some(fault) && p.storage == next
    ensures var a, b := Resume(h, st, catalog, directory, None, Some(fault)),
                        Resume(h, next, catalog, directory, None, Some(fault));
            a.result == b.result && a.fault == b.fault && a.storage == b.storage
  {
  }

  lemma AppliedFires(h: Hash, w: World, st: Storage, catalog: seq<FamilyIdentity>, fault: Fault)
    requires AppliedStage(h, w, st, catalog) && fault != AfterPlanPersisted && fault != AfterRetractionsApplied
    requires End(h, st, catalog, w.identified).result.Ok?
    ensures var out := Resume(h, st, catalog, w.identified, None, Some(fault));
            out.result == Err(CompactionInterrupted) && out.fault.None? && out.storage.intent.Some?
  {
    AppliedAdvances(h, w, st, catalog);
    if fault == AfterCheckpointPublished {
      FaultFiresNow(h, st, catalog, w.identified, fault);
      StopsHere(h, st, catalog, w.identified, fault);
    } else {
      var covered := RunPhase(h, st, catalog, w.identified, None, None).storage;
      FaultWaits(h, st, catalog, w.identified, fault);
      ResumesLater(h, st, covered, catalog, w.identified, fault);
      CheckpointedFinishes(h, w, covered, catalog);
      PhaseKeepsFault(h, st, catalog, w.identified);
      EndAfterPhase(h, st, catalog, w.identified);
      ResumeIs(h, covered, catalog, w.identified);
      FaultFiresNow(h, covered, catalog, w.identified, fault);
      StopsHere(h, covered, catalog, w.identified, fault);
    }
  }

  // ---- Imports ----

  lemma {:induction false} RowsAreRecords(rows: seq<ViewRow>)
    requires ApplyCheckpointRows(EMPTY_VIEW, rows).Ok?
    ensures forall row :: row in rows ==> row.payload.Record?
  {
    if rows != [] { RowsAreRecords(rows[..|rows| - 1]); }
  }

  /** An accepted import reports the range its checkpoint covers, the suffix beside it,
      the digest and the number of the rows they fold to, and the store's cursors. */
  lemma ImportReports(h: Hash, st: Storage, catalog: seq<FamilyIdentity>, directory: Directory, k: Checkpoint,
                      suffix: seq<Entry>)
    requires ApplyImport(h, st, catalog, directory, k, suffix).result.Ok?
    ensures var out := ApplyImport(h, st, catalog, directory, k, suffix);
            var r, view := out.result.value, Fold(h, k.Rows(), suffix, Some(k.metadata.coveredDigest));
            && view.Ok? && r.viewDigest == h(ViewItem(view.value.rows)) && r.rows == |view.value.rows|
            && r.first == k.metadata.first && r.last == k.metadata.last && r.suffix == |suffix|
            && out.storage.sequence == Some(r.sequence) && out.storage.snapshot == Some(r.snapshot)
  {
    var view := Fold(h, k.Rows(), suffix, Some(k.metadata.coveredDigest)).value;
    RowsAreRecords(k.Rows());
    FoldSelfDescribing(h, k.Rows(), suffix, Some(k.metadata.coveredDigest), k.metadata.inventory.families);
    CountsRows(view, k.metadata.inventory.families);
  }
}
