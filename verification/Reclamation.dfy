// Which checkpoint segments a store keeps: exactly those some stored checkpoint
// references, and after any compaction exactly those the latest one does.
module Reclamation {
  import opened ByteStrings
  import opened Errors
  import opened Versioning
  import opened CanonicalViews
  import opened Checkpoints
  import opened Catalogs
  import opened Stores
  import opened Invariants
  import opened Histories
  import opened Retention
  import opened Writes
  import opened Evolution
  import opened Rebuilding
  import opened Staging
  import opened StagingLaws
  import opened Recovery
  import opened Ledgers
  import opened Lifetimes
  import opened Runs
  import opened Restores

  /** The digests the stored checkpoints reference. */
  function AllReferenced(checkpoints: map<nat, Metadata>): set<Digest> {
    set n, d | n in checkpoints && d in Referenced(checkpoints[n]) :: d
  }

  /** No segment is missing and none is orphaned. */
  ghost predicate Collected(st: Storage) {
    && st.segments.Keys == AllReferenced(st.checkpoints)
    && forall n :: n in st.checkpoints ==> n <= CutNumber(st)
  }

  /** Only the latest checkpoint is left, naming no other, and only the segments it
      references. */
  ghost predicate Reclaimed(st: Storage) {
    && st.latestCheckpoint.Some? && st.checkpoints.Keys == {st.latestCheckpoint.value}
    && st.checkpoints[st.latestCheckpoint.value].previous.None?
    && st.segments.Keys == Referenced(st.checkpoints[st.latestCheckpoint.value])
  }

  lemma ReclaimedIsCollected(st: Storage)
    requires Reclaimed(st)
    ensures Collected(st)
  {
    var n := st.latestCheckpoint.value;
    assert AllReferenced(st.checkpoints) == Referenced(st.checkpoints[n]) by {
      forall d | d in Referenced(st.checkpoints[n]) ensures d in AllReferenced(st.checkpoints) {
        assert n in st.checkpoints;
      }
    }
  }

  /** What a step does to them: nothing is orphaned, entries only ever leave the log,
      and when some do, everything else leaves with them. */
  ghost predicate Collects(a: Storage, b: Storage) {
    && (Collected(a) ==> Collected(b))
    && Dropped(b) >= Dropped(a)
    && (Dropped(b) > Dropped(a) ==> Reclaimed(b))
  }

  /** Neither the checkpoints nor the reach of the log moved. */
  ghost predicate SamePlane(a: Storage, b: Storage) {
    && b.checkpoints == a.checkpoints && b.segments == a.segments && b.latestCheckpoint == a.latestCheckpoint
    && Dropped(b) == Dropped(a)
  }

  lemma PlaneCollects(a: Storage, b: Storage)
    requires SamePlane(a, b)
    ensures Collects(a, b)
  {
  }

  lemma CollectsThen(a: Storage, b: Storage, c: Storage)
    requires Collects(a, b) && Collects(b, c) && (Dropped(b) == Dropped(a) || SamePlane(b, c))
    ensures Collects(a, c)
  {
  }

  // ---- A checkpoint ----

  function DigestsOf(h: Hash, segments: seq<Segment>): set<Digest> { set s | s in segments :: SegmentDigest(h, s) }

  lemma {:induction false} StoredKeys(h: Hash, stored: map<Digest, Segment>, segments: seq<Segment>)
    ensures StoreSegments(h, stored, segments).Keys == stored.Keys + DigestsOf(h, segments)
  {
    if segments != [] {
      var n := |segments| - 1;
      assert segments == segments[..n] + [segments[n]];
      StoredKeys(h, stored, segments[..n]);
    }
  }

  lemma ReferencedDigests(h: Hash, m: Metadata, segments: seq<Segment>)
    requires m.segments == References(h, segments)
    ensures Referenced(m) == DigestsOf(h, segments)
  {
    forall d | d in DigestsOf(h, segments) ensures d in Referenced(m) {
      var i :| 0 <= i < |segments| && SegmentDigest(h, segments[i]) == d;
      assert m.segments[i] == Reference(h, segments[i]);
    }
  }

  lemma NewReferenced(checkpoints: map<nat, Metadata>, m: Metadata)
    requires m.sequence !in checkpoints
    ensures AllReferenced(checkpoints[m.sequence := m]) == AllReferenced(checkpoints) + Referenced(m)
  {
    var all := checkpoints[m.sequence := m];
    forall d ensures d in AllReferenced(all) <==> d in AllReferenced(checkpoints) || d in Referenced(m) {
      if d in Referenced(m) { assert m.sequence in all && all[m.sequence] == m; }
      if d in AllReferenced(checkpoints) {
        var n :| n in checkpoints && d in Referenced(checkpoints[n]);
        assert n in all && all[n] == checkpoints[n];
      }
    }
  }

  lemma PutCollects(h: Hash, st: Storage, k: Checkpoint)
    requires k.metadata.sequence > CutNumber(st) && k.metadata.segments == References(h, k.segments)
    ensures Collects(st, PutCheckpoint(h, st, k))
  {
    if Collected(st) {
      StoredKeys(h, st.segments, k.segments);
      ReferencedDigests(h, k.metadata, k.segments);
      NewReferenced(st.checkpoints, k.metadata);
    }
  }

  lemma WriteCollects(h: Hash, w: World, st: Storage, catalog: seq<FamilyIdentity>)
    requires Inv(h, w, st, catalog)
    ensures WriteCheckpoint(h, st, catalog).Ok? ==>
              var st' := WriteCheckpoint(h, st, catalog).value; Collects(st, st') && Dropped(st') == Dropped(st)
  {
    if CutCheckpoint(h, st, catalog).Ok? {
      CutReaches(h, w, st, catalog);
      CutReferences(h, w, st, catalog);
      PutCollects(h, st, CutCheckpoint(h, st, catalog).value);
    }
  }

  lemma CutReferences(h: Hash, w: World, st: Storage, catalog: seq<FamilyIdentity>)
    requires Inv(h, w, st, catalog) && CutCheckpoint(h, st, catalog).Ok?
    ensures var k := CutCheckpoint(h, st, catalog).value; k.metadata.segments == References(h, k.segments)
  {
    var c := LatestCheckpoint(h, st).value;
    CutIs(h, st, catalog, c);
    CutOverMeaning(h, w, st, catalog, c);
  }

  // ---- Compaction ----

  /** Trimming leaves the one checkpoint and the segments it references, whatever
      was there before. */
  lemma TrimReclaims(h: Hash, st: Storage, k: Checkpoint)
    requires LatestCheckpoint(h, st) == Ok(Some(k)) && st.latestCheckpoint == Some(k.metadata.sequence)
    ensures Reclaimed(Trim(h, st, k)) && Collects(st, Trim(h, st, k))
  {
    TrimLoads(h, st, k);
    FromShrinks(st.versioned, EntryRowSequence, k.metadata.last + 1);
    ReclaimedIsCollected(Trim(h, st, k));
  }

  /** What a covering checkpoint is: the latest one, read back. */
  ghost predicate ReadBack(h: Hash, covering: Outcome<Checkpoint>) {
    covering.result.Ok? ==>
      && LatestCheckpoint(h, covering.storage) == Ok(Some(covering.result.value))
      && covering.storage.latestCheckpoint == Some(covering.result.value.metadata.sequence)
  }

  lemma CoveringCollects(h: Hash, w: World, st: Storage, catalog: seq<FamilyIdentity>, current: nat)
    requires Inv(h, w, st, catalog)
    ensures var covering := EnsureCovering(h, st, catalog, current);
            && Collects(st, covering.storage) && Dropped(covering.storage) == Dropped(st)
            && ReadBack(h, covering) && covering.storage.versioned == st.versioned
  {
    PlaneCollects(st, st);
    WriteCollects(h, w, st, catalog);
    CoveringMovesCheckpoints(h, st, catalog, current);
    CoveringReadsBack(h, w, st, catalog, current);
    CoveringIs(h, st, catalog, current);
  }

  lemma CoveringIs(h: Hash, st: Storage, catalog: seq<FamilyIdentity>, current: nat)
    ensures var st' := EnsureCovering(h, st, catalog, current).storage;
            st' == st || WriteCheckpoint(h, st, catalog) == Ok(st')
  {
  }

  lemma CoveringReadsBack(h: Hash, w: World, st: Storage, catalog: seq<FamilyIdentity>, current: nat)
    requires Inv(h, w, st, catalog)
    ensures ReadBack(h, EnsureCovering(h, st, catalog, current))
  {
    if !CoveredAt(h, st, current) && WriteCheckpoint(h, st, catalog).Ok? {
      PutReadsBack(h, st, CutCheckpoint(h, st, catalog).value);
    }
  }

  lemma PutReadsBack(h: Hash, st: Storage, k: Checkpoint)
    ensures ReadBack(h, Reload(h, st, Ok(PutCheckpoint(h, st, k))))
  {
  }

  lemma TrimOverReclaims(h: Hash, covering: Outcome<Checkpoint>, before: nat, ack: Acknowledgement)
    requires ReadBack(h, covering)
    ensures var out := TrimOver(h, covering, before, ack);
            Collects(covering.storage, out.storage) && (out.result.Ok? ==> Reclaimed(out.storage))
  {
    PlaneCollects(covering.storage, covering.storage);
    if covering.result.Ok? { TrimReclaims(h, covering.storage, covering.result.value); }
  }

  /** A compaction orphans nothing; one that had something to do and succeeded leaves
      exactly the latest checkpoint and the segments it references. */
  lemma CompactReclaims(h: Hash, w: World, st: Storage, catalog: seq<FamilyIdentity>, current: nat, maximum: nat,
                        ack: Acknowledgement)
    requires Inv(h, w, st, catalog)
    ensures var out := CompactHistory(h, st, catalog, current, maximum, ack);
            && Collects(st, out.storage)
            && (out.result.Ok? && |st.versioned| > maximum ==> Reclaimed(out.storage))
  {
    PlaneCollects(st, st);
    if ValidateAcknowledgement(st, ack).Ok? && |st.versioned| > maximum {
      var covering := EnsureCovering(h, st, catalog, current);
      CoveringCollects(h, w, st, catalog, current);
      TrimOverReclaims(h, covering, |st.versioned|, ack);
      CollectsThen(st, covering.storage, TrimOver(h, covering, |st.versioned|, ack).storage);
    }
  }

  lemma MaintainReclaims(h: Hash, w: World, st: Storage, catalog: seq<FamilyIdentity>, current: nat)
    requires Inv(h, w, st, catalog)
    ensures Collects(st, Maintain(h, st, catalog, current).storage)
  {
    PlaneCollects(st, st);
    if st.policy.Some? && |st.versioned| > st.policy.value.maximumLive && ConfiguredAcknowledgement(st, current).Ok? {
      var ack := ConfiguredAcknowledgement(st, current).value;
      CompactReclaims(h, w, st, catalog, current, st.policy.value.maximumLive, ack);
    }
  }

  // ---- Runs ----

  lemma AppendPlane(st: Storage, e: Entry)
    requires e.sequence == Sequence(st) + 1
    ensures SamePlane(st, AppendEntry(st, e))
  {
  }

  lemma {:induction false} AppendsPlane(h: Hash, w: World, st: Storage, catalog: seq<FamilyIdentity>,
                                        entries: seq<Entry>)
    requires Inv(h, w, st, catalog) && st.policy.Some? && AllCurrent(w, st.registrations, AllOps(entries))
    requires VerifyGroup(h, entries, st.head, Sequence(st), Snapshot(st)) == Ok(())
    ensures SamePlane(st, AppendEntries(st, entries))
  {
    GroupPreserves(h, w, st, catalog, entries);
    AppendMeaning(st, entries);
    AppendsKeepPlane(st, entries);
  }

  lemma {:induction false} AppendsKeepPlane(st: Storage, entries: seq<Entry>)
    ensures var st' := AppendEntries(st, entries);
            && st'.checkpoints == st.checkpoints && st'.segments == st.segments
            && st'.latestCheckpoint == st.latestCheckpoint
  {
    if entries != [] { AppendsKeepPlane(st, entries[..|entries| - 1]); }
  }

  lemma DoneReclaims(h: Hash, w: World, sys: System, done: Done, maintains: bool, current: nat)
    requires SystemOk(h, w, sys)
    requires done.result.Err? ==> done.storage == sys.storage
    requires done.result.Ok? ==>
               exists e :: done.storage == AppendEntry(sys.storage, e) && NextOk(h, w, sys.storage, e)
                           && AllCurrent(w, sys.storage.registrations, e.operations)
    ensures Collects(sys.storage, if maintains then Maintained(h, done, sys.catalog, current).storage else done.storage)
  {
    PlaneCollects(sys.storage, sys.storage);
    MaintainedIs(h, done, sys.catalog, current);
    if done.result.Ok? {
      var e :| done.storage == AppendEntry(sys.storage, e) && NextOk(h, w, sys.storage, e)
               && AllCurrent(w, sys.storage.registrations, e.operations);
      AppendPlane(sys.storage, e);
      PlaneCollects(sys.storage, done.storage);
      if maintains {
        AppendPreserves(h, w, sys.storage, sys.catalog, e);
        MaintainReclaims(h, w, done.storage, sys.catalog, current);
        CollectsThen(sys.storage, done.storage, Maintain(h, done.storage, sys.catalog, current).storage);
      }
    }
  }

  lemma IssueReclaims(h: Hash, w: World, sys: System, call: Call)
    requires SystemOk(h, w, sys) && Legal(h, w, sys, Issue(call))
    ensures Collects(sys.storage, IssueCall(h, sys, call).storage)
  {
    if sys.build.None? {
      var done := Direct(h, sys.storage, sys.catalog, call);
      DirectAppends(h, w, sys.storage, sys.catalog, call);
      PerformIs(h, sys.storage, sys.catalog, call);
      DoneReclaims(h, w, sys, done, IsDomainCall(call), Sequence(done.storage));
    } else {
      PlaneCollects(sys.storage, IssueCall(h, sys, call).storage);
    }
  }

  lemma IssueGroupReclaims(h: Hash, w: World, sys: System, writes: seq<Write>)
    requires SystemOk(h, w, sys) && Legal(h, w, sys, IssueAtomic(writes))
    ensures Collects(sys.storage, IssueGroup(h, sys, writes).storage)
  {
    var done := CommitAtomic(h, sys.storage, sys.catalog, writes);
    AtomicAppends(h, w, sys.storage, sys.catalog, writes);
    DoneReclaims(h, w, sys, done, true, EngagedAt(sys).GetOr(Sequence(done.storage)));
  }

  lemma PersistPlane(h: Hash, st: Storage, moved: seq<FamilyIdentity>, stored: FamilyIdentity, evolved: FamilyIdentity,
                     rows: seq<Row>)
    requires st.policy.Some?
    ensures SamePlane(st, PersistEvolution(h, st, moved, stored, evolved, rows))
  {
  }

  lemma EvolveReclaims(h: Hash, w: World, sys: System, d: Descriptor)
    requires SystemOk(h, w, sys) && Declarable(h, w, sys, d) && Evolving(sys, d) && Carries(sys, d)
    ensures Collects(sys.storage, RegisterFamily(h, sys, d).storage)
  {
    var stored := FindTable(sys.catalog, d.family.table).value;
    var moved, persisted := Evolved(sys.catalog, d.family.table, d.family).value, Persisted(h, sys, d);
    EvolveStepIs(h, w, sys, d);
    LandingInv(h, w, sys.storage, sys.catalog, d, stored, StepFor(d, stored).value);
    PersistPlane(h, sys.storage, moved, stored, d.family, CarriedRows(sys, d));
    PlaneCollects(sys.storage, persisted);
    if CarriedRows(sys, d) != [] {
      var current := EngagedAt(sys).GetOr(Sequence(persisted));
      MaintainReclaims(h, w, persisted, moved, current);
      CollectsThen(sys.storage, persisted, Maintain(h, persisted, moved, current).storage);
    }
  }

  lemma RegisterReclaims(h: Hash, w: World, sys: System, d: Descriptor)
    requires SystemOk(h, w, sys) && Declarable(h, w, sys, d)
    ensures Collects(sys.storage, RegisterFamily(h, sys, d).storage)
  {
    if !Evolving(sys, d) {
      RegisterNewIs(h, sys, d);
      PlaneCollects(sys.storage, RegisterFamily(h, sys, d).storage);
    } else if Carries(sys, d) {
      EvolveReclaims(h, w, sys, d);
    } else {
      RefusedEvolution(h, sys, d);
      PlaneCollects(sys.storage, sys.storage);
    }
  }

  lemma CommitDeclarationReclaims(h: Hash, w: World, sys: System, d: Descriptor)
    requires SystemOk(h, w, sys) && Landable(w, sys, d)
    ensures SamePlane(sys.storage, Committed(h, sys, OfDeclaration(d)).storage)
  {
    if !Evolving(sys, d) {
      RegisterNewIs(h, sys, d);
    } else if Carries(sys, d) {
      PersistPlane(h, sys.storage, Evolved(sys.catalog, d.family.table, d.family).value,
                   FindTable(sys.catalog, d.family.table).value, d.family, CarriedRows(sys, d));
    } else {
      RefusedEvolution(h, sys, d);
    }
  }

  lemma CommitReclaims(h: Hash, w: World, sys: System, c: Commitment)
    requires SystemOk(h, w, sys) && Legal(h, w, sys, CommitOnly(c))
    ensures Collects(sys.storage, Committed(h, sys, c).storage)
  {
    match c {
      case OfCall(call) =>
        if sys.build.None? {
          DirectAppends(h, w, sys.storage, sys.catalog, call);
          DoneReclaims(h, w, sys, Direct(h, sys.storage, sys.catalog, call), false, 0);
        } else {
          PlaneCollects(sys.storage, Committed(h, sys, c).storage);
        }
      case OfGroup(writes) =>
        AtomicAppends(h, w, sys.storage, sys.catalog, writes);
        DoneReclaims(h, w, sys, CommitAtomic(h, sys.storage, sys.catalog, writes), false, 0);
      case OfDeclaration(d) =>
        CommitDeclarationReclaims(h, w, sys, d);
        PlaneCollects(sys.storage, Committed(h, sys, c).storage);
    }
  }

  lemma CutReclaims(h: Hash, w: World, sys: System)
    requires SystemOk(h, w, sys)
    ensures Collects(sys.storage, CutStep(h, sys).storage)
  {
    PlaneCollects(sys.storage, sys.storage);
    WriteCollects(h, w, sys.storage, sys.catalog);
  }

  lemma CompactNowReclaims(h: Hash, w: World, sys: System, maximum: nat, ack: Acknowledgement)
    requires SystemOk(h, w, sys)
    ensures Collects(sys.storage, CompactStep(h, sys, maximum, ack).storage)
  {
    CompactReclaims(h, w, sys.storage, sys.catalog, Runs.Current(sys), maximum, ack);
  }

  lemma MaterializeReclaims(h: Hash, w: World, sys: System)
    requires SystemOk(h, w, sys)
    ensures SamePlane(sys.storage, MaterializeStep(h, w, sys).storage)
  {
    MaterializeStepIs(h, w, sys);
    if Materialize(h, sys.storage, w.identified, sys.build.Some?).result.Ok? {
      AppendsPlane(h, w, sys.storage, sys.catalog, sys.storage.slot.value.entries);
    }
  }

  lemma RegisterIdentifiedReclaims(st: Storage, catalog: seq<FamilyIdentity>, id: FamilyIdentity)
    ensures Collects(st, RegisterIdentified(st, catalog, id).storage)
  {
    var st' := RegisterIdentified(st, catalog, id).storage;
    assert SamePlane(st, st');
  }

  lemma RebuildReclaims(h: Hash, w: World, sys: System)
    requires SystemOk(h, w, sys)
    ensures Collects(sys.storage, RebuildStep(h, w, sys).storage)
  {
    RebuildOk(h, w, sys);
    PlaneCollects(sys.storage, sys.storage);
  }

  lemma AcknowledgeReclaims(st: Storage, head: MirrorHead)
    ensures Collects(st, Acknowledge(st, head).storage)
  {
    var st' := Acknowledge(st, head).storage;
    assert SamePlane(st, st');
  }

  lemma AsideCollects(a: Storage, b: Storage)
    requires Aside(a, b)
    ensures Collects(a, b)
  {
    PlaneCollects(a, b);
  }

  // ---- A resumed plan ----

  lemma PublishReclaims(h: Hash, w: World, st: Storage, catalog: seq<FamilyIdentity>, final: Option<nat>,
                        fault: Option<Fault>)
    requires Inv(h, w, st, catalog)
    ensures var st' := PublishCheckpoint(h, st, catalog, final, fault).storage;
            Collects(st, st') && Dropped(st') == Dropped(st)
  {
    PlaneCollects(st, st);
    PublishIs(h, st, catalog, final, fault);
    if final.Some? {
      var covered, st' :=
          CoverPlan(h, st, catalog, final.value).storage, PublishCheckpoint(h, st, catalog, final, fault).storage;
      CoverIs(h, st, catalog, final.value);
      WriteCollects(h, w, st, catalog);
      PlaneCollects(covered, st');
      CollectsThen(st, covered, st');
    }
  }

  lemma FloorReclaims(h: Hash, w: World, st: Storage, catalog: seq<FamilyIdentity>, current: nat, fault: Option<Fault>)
    requires Inv(h, w, st, catalog) && st.policy.Some?
    ensures Collects(st, AdvanceFloor(h, st, catalog, current, fault).storage)
  {
    var kept, st' := Maintain(h, st, catalog, current).storage, AdvanceFloor(h, st, catalog, current, fault).storage;
    FloorIs(h, st, catalog, current, fault);
    MaintainReclaims(h, w, st, catalog, current);
    CollectsThen(st, kept, st');
  }

  lemma PhaseReclaims(h: Hash, w: World, sys: System, fault: Option<Fault>)
    requires SystemOk(h, w, sys) && sys.storage.policy.Some?
    ensures var st' := AfterPhase(h, w, sys, fault).storage;
            && Collects(sys.storage, st')
            && (sys.storage.intent.Some? && !sys.storage.intent.value.phase.Checkpointed? ==>
                Dropped(st') == Dropped(sys.storage))
  {
    PhaseIs(h, w, sys, fault);
    PlaneCollects(sys.storage, sys.storage);
    match sys.storage.intent {
      case None =>
      case Some(Intent(Planned, _)) =>
        MaterializeReclaims(h, w, sys);
        PlaneCollects(sys.storage, MaterializeStep(h, w, sys).storage);
      case Some(Intent(Applied, final)) => PublishReclaims(h, w, sys.storage, sys.catalog, final, fault);
      case Some(Intent(Checkpointed, _)) =>
        FloorReclaims(h, w, sys.storage, sys.catalog, EngagedAt(sys).GetOr(Sequence(sys.storage)), fault);
    }
  }

  /** Only the last phase drops entries, and it is the one that does not continue. */
  lemma FloorEnds(h: Hash, st: Storage, catalog: seq<FamilyIdentity>, directory: Directory, engaged: Option<nat>,
                  fault: Option<Fault>)
    ensures RunPhase(h, st, catalog, directory, engaged, fault).more == Ok(true) ==>
              st.intent.Some? && !st.intent.value.phase.Checkpointed?
  {
  }

  lemma {:induction false} ResumeReclaims(h: Hash, w: World, sys: System, fault: Option<Fault>)
    requires SystemOk(h, w, sys) && sys.storage.policy.Some?
    requires ResumeClear(h, sys.storage, sys.catalog, w.identified, EngagedAt(sys), fault)
    ensures Collects(sys.storage, ResumeStep(h, w, sys, fault).storage)
    decreases Rank(sys.storage.intent)
  {
    var p, after :=
        RunPhase(h, sys.storage, sys.catalog, w.identified, EngagedAt(sys), fault), AfterPhase(h, w, sys, fault);
    PhaseReclaims(h, w, sys, fault);
    ResumeByPhase(h, w, sys, fault);
    if p.more == Ok(true) {
      PhaseOk(h, w, sys, fault);
      PhaseSteady(h, w, sys, fault);
      FloorEnds(h, sys.storage, sys.catalog, w.identified, EngagedAt(sys), fault);
      PhaseDescends(h, sys.storage, sys.catalog, w.identified, EngagedAt(sys), fault);
      ResumeReclaims(h, w, after, p.fault);
      CollectsThen(sys.storage, after.storage, ResumeStep(h, w, after, p.fault).storage);
    }
  }

  lemma SlotStepsReclaim(sys: System, fault: Option<Fault>)
    ensures Collects(sys.storage, ParkStep(sys).storage) && Collects(sys.storage, ParkPlanStep(sys, fault).storage)
    ensures Collects(sys.storage, DiscardStep(sys).storage)
  {
    SlotStepsAside(sys, fault);
    AsideCollects(sys.storage, ParkStep(sys).storage);
    AsideCollects(sys.storage, ParkPlanStep(sys, fault).storage);
    AsideCollects(sys.storage, DiscardStep(sys).storage);
  }

  lemma MaterializeCollects(h: Hash, w: World, sys: System)
    requires SystemOk(h, w, sys)
    ensures Collects(sys.storage, MaterializeStep(h, w, sys).storage)
  {
    MaterializeReclaims(h, w, sys);
    PlaneCollects(sys.storage, MaterializeStep(h, w, sys).storage);
  }

  lemma SessionStepsReclaim(h: Hash, sys: System)
    ensures Collects(sys.storage, BeginStep(h, sys).storage) && Collects(sys.storage, BeginPlanStep(h, sys).storage)
    ensures Collects(sys.storage, sys.storage)
  {
    SessionStepsAside(h, sys);
    PlaneCollects(sys.storage, sys.storage);
  }

  /** Every legal step orphans no segment; one in which entries leave the log leaves
      exactly the latest checkpoint and the segments it references. */
  lemma StepReclaims(h: Hash, w: World, sys: System, step: Step)
    requires SystemOk(h, w, sys) && Legal(h, w, sys, step) && sys.storage.policy.Some?
    ensures Collects(sys.storage, Next(h, w, sys, step).storage)
  {
    match step {
      case Issue(call) => IssueReclaims(h, w, sys, call);
      case IssueAtomic(writes) => IssueGroupReclaims(h, w, sys, writes);
      case Register(d) => RegisterReclaims(h, w, sys, d);
      case RegisterAndReopen(d) => RegisterReclaims(h, w, sys, d);
      case CommitOnly(c) => CommitReclaims(h, w, sys, c);
      case CutCheckpointNow => CutReclaims(h, w, sys);
      case CompactNow(maximum, ack) => CompactNowReclaims(h, w, sys, maximum, ack);
      case ResumePlan(fault) => ResumeReclaims(h, w, sys, fault);
      case RegisterIdentifiedTable(id) => RegisterIdentifiedReclaims(sys.storage, sys.catalog, id);
      case RebuildTables => RebuildReclaims(h, w, sys);
      case AcknowledgeMirror(head) => AcknowledgeReclaims(sys.storage, head);
      case MaterializeStaged => MaterializeCollects(h, w, sys);
      case ParkStaged => SlotStepsReclaim(sys, None);
      case ParkPlan(fault) => SlotStepsReclaim(sys, fault);
      case DiscardStaged => SlotStepsReclaim(sys, None);
      case _ => SessionStepsReclaim(h, sys);
    }
  }

  /** In every reachable state the stored segments are exactly those the stored
      checkpoints reference, and the last step to drop entries from the log left only
      the latest checkpoint's. */
  lemma {:induction false} SegmentsAreReferenced(h: Hash, w: World, policy: Policy, steps: seq<Step>)
    requires AllLegal(h, w, Created(policy), steps)
    ensures var st := After(h, w, Created(policy), steps).storage;
            && Collected(st)
            && (steps != [] ==>
                  var before := After(h, w, Created(policy), steps[..|steps| - 1]).storage;
                  Dropped(st) >= Dropped(before) && (Dropped(st) > Dropped(before) ==> Reclaimed(st)))
    decreases |steps|
  {
    if steps != [] {
      var init := steps[..|steps| - 1];
      SegmentsAreReferenced(h, w, policy, init);
      CreatedOk(h, w, policy);
      RunOk(h, w, Created(policy), init);
      RunAdvances(h, w, Created(policy), init);
      StepReclaims(h, w, After(h, w, Created(policy), init), steps[|steps| - 1]);
    }
  }
}
