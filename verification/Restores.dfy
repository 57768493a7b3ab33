// What an import restores of a store some run reached: the checkpoint's inventory is
// the one of its cut, and the suffix decides the rest.
module Restores {
  import opened ByteStrings
  import opened Errors
  import opened Versioning
  import opened CanonicalViews
  import opened Checkpoints
  import opened Catalogs
  import opened Stores
  import opened Invariants
  import opened Histories
  import opened Retention
  import opened Writes
  import opened Evolution
  import opened Staging
  import opened StagingLaws
  import opened Recovery
  import opened Imports
  import opened Ledgers
  import opened Lifetimes
  import opened Runs

  // ---- What the latest checkpoint recorded ----

  /** The inventory and reach of the stored latest checkpoint. */
  datatype Stored = Stored(inventory: Inventory, last: nat)

  function StoredCut(st: Storage): Option<Stored> {
    if st.latestCheckpoint.Some? && st.latestCheckpoint.value in st.checkpoints
    then Some(Stored(st.checkpoints[st.latestCheckpoint.value].inventory,
                     st.checkpoints[st.latestCheckpoint.value].last))
    else None
  }

  function CutNumber(st: Storage): nat { st.latestCheckpoint.GetOr(0) }

  /** Either the latest checkpoint is still the same one, or a new one was cut from
      the store as it now stands, under this inventory. */
  ghost predicate Recut(a: Storage, b: Storage, catalog: seq<FamilyIdentity>) {
    || (b.latestCheckpoint == a.latestCheckpoint && StoredCut(b) == StoredCut(a))
    || (CutNumber(b) > CutNumber(a)
        && StoredCut(b) == Some(Stored(Inventory(catalog, CounterInventory(b.identified)), Sequence(b))))
  }

  lemma RecutTrans(a: Storage, b: Storage, c: Storage, catalog: seq<FamilyIdentity>)
    requires Recut(a, b, catalog) && Recut(b, c, catalog) && b.identified == c.identified && Sequence(b) == Sequence(c)
    ensures Recut(a, c, catalog)
  {
  }

  lemma CutReaches(h: Hash, w: World, st: Storage, catalog: seq<FamilyIdentity>)
    requires Inv(h, w, st, catalog) && CutCheckpoint(h, st, catalog).Ok?
    ensures var m := CutCheckpoint(h, st, catalog).value.metadata;
            m.last == Sequence(st) && m.inventory == Inventory(catalog, CounterInventory(st.identified))
                && m.sequence > CutNumber(st)
  {
    var c := LatestCheckpoint(h, st).value;
    CutIs(h, st, catalog, c);
    CutOverMeaning(h, w, st, catalog, c);
  }

  lemma WriteRecuts(h: Hash, w: World, st: Storage, catalog: seq<FamilyIdentity>)
    requires Inv(h, w, st, catalog)
    ensures WriteCheckpoint(h, st, catalog).Ok? ==> Recut(st, WriteCheckpoint(h, st, catalog).value, catalog)
  {
    if CutCheckpoint(h, st, catalog).Ok? { CutReaches(h, w, st, catalog); }
  }

  lemma ReloadRecuts(h: Hash, st: Storage, written: Result<Storage>, catalog: seq<FamilyIdentity>)
    requires written.Ok? ==> Recut(st, written.value, catalog)
    ensures Recut(st, Reload(h, st, written).storage, catalog)
  {
  }

  lemma CoveringRecuts(h: Hash, w: World, st: Storage, catalog: seq<FamilyIdentity>, current: nat)
    requires Inv(h, w, st, catalog)
    ensures Recut(st, EnsureCovering(h, st, catalog, current).storage, catalog)
  {
    WriteRecuts(h, w, st, catalog);
    ReloadRecuts(h, st, WriteCheckpoint(h, st, catalog), catalog);
  }

  lemma TrimRecuts(h: Hash, st: Storage, k: Checkpoint, catalog: seq<FamilyIdentity>)
    requires LatestCheckpoint(h, st) == Ok(Some(k)) && CoversOk(st, Some(k))
    ensures Recut(st, Trim(h, st, k), catalog)
  {
  }

  lemma TrimOverRecuts(h: Hash, covering: Outcome<Checkpoint>, before: nat, ack: Acknowledgement,
                       catalog: seq<FamilyIdentity>)
    requires covering.result.Ok? ==> LatestCheckpoint(h, covering.storage) == Ok(Some(covering.result.value))
                                     && CoversOk(covering.storage, Some(covering.result.value))
    ensures Recut(covering.storage, TrimOver(h, covering, before, ack).storage, catalog)
  {
    if covering.result.Ok? { TrimRecuts(h, covering.storage, covering.result.value, catalog); }
  }

  lemma CoveringStands(h: Hash, w: World, st: Storage, catalog: seq<FamilyIdentity>, current: nat)
    requires Inv(h, w, st, catalog) && CoverClear(h, st, catalog, current)
    ensures var covering := EnsureCovering(h, st, catalog, current);
            && OnlyCheckpoints(st, covering.storage)
            && (covering.result.Ok? ==> LatestCheckpoint(h, covering.storage) == Ok(Some(covering.result.value))
                                        && CoversOk(covering.storage, Some(covering.result.value)))
  {
    CoveringPreserves(h, w, st, catalog, current);
    CoveringMovesCheckpoints(h, st, catalog, current);
  }

  lemma CompactRecuts(h: Hash, w: World, st: Storage, catalog: seq<FamilyIdentity>, current: nat, maximum: nat,
                      ack: Acknowledgement)
    requires Inv(h, w, st, catalog) && CompactClear(h, st, catalog, current, maximum, ack)
    ensures Recut(st, CompactHistory(h, st, catalog, current, maximum, ack).storage, catalog)
  {
    if ValidateAcknowledgement(st, ack).Ok? && |st.versioned| > maximum {
      CoveringRecuts(h, w, st, catalog, current);
      CoveringStands(h, w, st, catalog, current);
      CompactRecutsFrom(h, st, catalog, current, maximum, ack);
    }
  }

  lemma CompactRecutsFrom(h: Hash, st: Storage, catalog: seq<FamilyIdentity>, current: nat, maximum: nat,
                          ack: Acknowledgement)
    requires var covering := EnsureCovering(h, st, catalog, current);
             && Recut(st, covering.storage, catalog) && OnlyCheckpoints(st, covering.storage)
             && (covering.result.Ok? ==> LatestCheckpoint(h, covering.storage) == Ok(Some(covering.result.value))
                                         && CoversOk(covering.storage, Some(covering.result.value)))
    ensures Recut(st, CompactHistory(h, st, catalog, current, maximum, ack).storage, catalog)
  {
    if ValidateAcknowledgement(st, ack).Ok? && |st.versioned| > maximum {
      var covering := EnsureCovering(h, st, catalog, current);
      TrimOverRecuts(h, covering, |st.versioned|, ack, catalog);
      TrimOverMovesHistory(h, covering, |st.versioned|, ack);
      RecutTrans(st, covering.storage, TrimOver(h, covering, |st.versioned|, ack).storage, catalog);
    }
  }

  lemma MaintainRecuts(h: Hash, w: World, st: Storage, catalog: seq<FamilyIdentity>, current: nat)
    requires Inv(h, w, st, catalog) && MaintainClear(h, st, catalog, current)
    ensures Recut(st, Maintain(h, st, catalog, current).storage, catalog)
  {
    if st.policy.Some? && |st.versioned| > st.policy.value.maximumLive && ConfiguredAcknowledgement(st, current).Ok? {
      CompactRecuts(h, w, st, catalog, current, st.policy.value.maximumLive,
                    ConfiguredAcknowledgement(st, current).value);
    }
  }

  // ---- What every step does to it ----

  /** The record lists exactly what this store has registered and counted. */
  ghost predicate Faithful(s: Stored, st: Storage) {
    BindAll(map[], s.inventory.families) == st.registrations && CountAll(map[], s.inventory.counters) == st.identified
    && s.last == Sequence(st)
  }

  /** A step keeps the latest checkpoint, or leaves one that is faithful. */
  ghost predicate Relists(a: Storage, b: Storage) {
    || (b.latestCheckpoint == a.latestCheckpoint && StoredCut(b) == StoredCut(a))
    || (CutNumber(b) > CutNumber(a) && StoredCut(b).Some? && Faithful(StoredCut(b).value, b))
  }

  lemma {:induction false} CountAt(counters: seq<IdentifiedCounter>, t: Name)
    ensures t in CountAll(map[], counters) <==> exists i :: 0 <= i < |counters| && counters[i].table == t
    ensures forall i :: 0 <= i < |counters| && counters[i].table == t
                        && (forall j :: 0 <= j < |counters| && counters[j].table == t ==>
                            counters[j].next == counters[i].next)
                        ==> t in CountAll(map[], counters) && CountAll(map[], counters)[t] == counters[i].next
  {
    if counters != [] {
      var init, last := counters[..|counters| - 1], counters[|counters| - 1];
      CountAt(init, t);
      if i :| 0 <= i < |counters| && counters[i].table == t && last.table != t { assert init[i].table == t; }
    }
  }

  /** Counters listed table by table count back, whatever their order. */
  lemma CountersAtRestore(identified: map<Name, nat>, tables: seq<Name>)
    requires forall t :: t in tables <==> t in identified
    ensures CountAll(map[], CountersAt(identified, tables)) == identified
  {
    var counters := CountersAt(identified, tables);
    forall t
      ensures t in CountAll(map[], counters) <==> t in identified
      ensures t in identified && t in CountAll(map[], counters) ==> CountAll(map[], counters)[t] == identified[t]
    {
      CountAt(counters, t);
      if t in identified {
        assert t in tables;
        var i :| 0 <= i < |tables| && tables[i] == t;
        assert counters[i].table == t;
      }
    }
  }

  /** Restoring a counter inventory gives back the counters. */
  lemma CountersRestore(identified: map<Name, nat>)
    ensures CountAll(map[], CounterInventory(identified)) == identified
  {
    CounterOrder();
    CountersAtRestore(identified, InOrder(identified.Keys, CounterLeq));
  }

  /** Binding the families of an inventory gives back the rows it lists. */
  lemma FamiliesRestore(catalog: seq<FamilyIdentity>, registrations: map<Name, FamilyIdentity>)
    requires Lists(catalog, registrations) && DistinctTables(catalog)
    ensures BindAll(map[], catalog) == registrations
  {
    forall t
      ensures t in BindAll(map[], catalog) <==> t in registrations
      ensures t in registrations && t in BindAll(map[], catalog) ==> BindAll(map[], catalog)[t] == registrations[t]
    {
      BindLists(catalog, t);
      assert FindTable(catalog, t) == Lookup(registrations, t);
    }
  }

  lemma RecutRelists(a: Storage, b: Storage, catalog: seq<FamilyIdentity>)
    requires Recut(a, b, catalog) && Lists(catalog, b.registrations) && DistinctTables(catalog)
    ensures Relists(a, b)
  {
    FamiliesRestore(catalog, b.registrations);
    CountersRestore(b.identified);
  }

  /** Exactly the registered engine-identified tables have a counter. */
  ghost predicate KeysExact(w: World, st: Storage) {
    forall t {:trigger t in st.identified} :: t in st.identified <==> t in st.registrations && t in w.identified
  }

  lemma {:induction false} AdvanceKeepsKeys(w: World, identified: map<Name, nat>, ops: seq<LogOperation>)
    requires AllPlaced(w, ops)
    requires forall op :: op in ops && op.key.value.Identifier? ==> op.family.table in identified
    ensures AdvanceIdentified(identified, ops).Keys == identified.Keys
  {
    if ops != [] {
      assert ops[|ops| - 1] in ops;
      AdvanceKeepsKeys(w, identified, ops[..|ops| - 1]);
    }
  }

  lemma CurrentKeepsKeys(w: World, st: Storage, ops: seq<LogOperation>)
    requires AllCurrent(w, st.registrations, ops) && KeysExact(w, st)
    ensures AdvanceIdentified(st.identified, ops).Keys == st.identified.Keys
  {
    CurrentIsPlaced(w, st.registrations, ops);
    forall op | op in ops && op.key.value.Identifier? ensures op.family.table in st.identified {
      assert Invariants.Current(w, st.registrations, op);
    }
    AdvanceKeepsKeys(w, st.identified, ops);
  }

  /** What one step keeps of both. */
  ghost predicate Moves(w: World, a: Storage, b: Storage) {
    Relists(a, b) && (KeysExact(w, a) ==> KeysExact(w, b))
  }

  lemma AppendMoves(w: World, a: Storage, e: Entry)
    requires AllCurrent(w, a.registrations, e.operations)
    ensures Moves(w, a, AppendEntry(a, e))
  {
    if KeysExact(w, a) { CurrentKeepsKeys(w, a, e.operations); }
  }

  /** A step that first leaves the checkpoint alone, then only moves history. */
  lemma ThenMoves(w: World, a: Storage, b: Storage, c: Storage, catalog: seq<FamilyIdentity>)
    requires Moves(w, a, b) && b.latestCheckpoint == a.latestCheckpoint && StoredCut(b) == StoredCut(a)
    requires Recut(b, c, catalog) && OnlyHistory(b, c) && Lists(catalog, c.registrations) && DistinctTables(catalog)
    ensures Moves(w, a, c)
  {
    RecutRelists(b, c, catalog);
  }

  lemma MaintainMoves(h: Hash, w: World, a: Storage, b: Storage, catalog: seq<FamilyIdentity>, current: nat)
    requires Moves(w, a, b) && b.latestCheckpoint == a.latestCheckpoint && StoredCut(b) == StoredCut(a)
    requires Inv(h, w, b, catalog) && MaintainClear(h, b, catalog, current) && DistinctTables(catalog)
    ensures Moves(w, a, Maintain(h, b, catalog, current).storage)
  {
    MaintainRecuts(h, w, b, catalog, current);
    MaintainMovesHistory(h, b, catalog, current);
    ThenMoves(w, a, b, Maintain(h, b, catalog, current).storage, catalog);
  }

  lemma DoneMoves(h: Hash, w: World, sys: System, done: Done, maintains: bool, current: nat)
    requires SystemOk(h, w, sys)
    requires done.result.Err? ==> done.storage == sys.storage
    requires done.result.Ok? ==> exists e :: done.storage == AppendEntry(sys.storage, e) && NextOk(h, w, sys.storage, e)
                                             && AllCurrent(w, sys.storage.registrations, e.operations)
    requires maintains && done.result.Ok? ==> MaintainClear(h, done.storage, sys.catalog, current)
    ensures Moves(w, sys.storage, if maintains then Maintained(h, done, sys.catalog, current).storage else done.storage)
  {
    MaintainedIs(h, done, sys.catalog, current);
    if done.result.Ok? {
      var e :| done.storage == AppendEntry(sys.storage, e) && NextOk(h, w, sys.storage, e)
               && AllCurrent(w, sys.storage.registrations, e.operations);
      AppendMoves(w, sys.storage, e);
      if maintains {
        AppendPreserves(h, w, sys.storage, sys.catalog, e);
        MaintainMoves(h, w, sys.storage, done.storage, sys.catalog, current);
      }
    }
  }

  lemma IssueMoves(h: Hash, w: World, sys: System, call: Call)
    requires SystemOk(h, w, sys) && Legal(h, w, sys, Issue(call))
    ensures Moves(w, sys.storage, IssueCall(h, sys, call).storage)
  {
    if sys.build.None? {
      var done := Direct(h, sys.storage, sys.catalog, call);
      DirectAppends(h, w, sys.storage, sys.catalog, call);
      PerformIs(h, sys.storage, sys.catalog, call);
      DoneMoves(h, w, sys, done, IsDomainCall(call), Sequence(done.storage));
    }
  }

  lemma IssueGroupMoves(h: Hash, w: World, sys: System, writes: seq<Write>)
    requires SystemOk(h, w, sys) && Legal(h, w, sys, IssueAtomic(writes))
    ensures Moves(w, sys.storage, IssueGroup(h, sys, writes).storage)
  {
    var done := CommitAtomic(h, sys.storage, sys.catalog, writes);
    AtomicAppends(h, w, sys.storage, sys.catalog, writes);
    DoneMoves(h, w, sys, done, true, EngagedAt(sys).GetOr(Sequence(done.storage)));
  }

  // ---- Registration ----

  lemma NewMoves(w: World, st: Storage, id: FamilyIdentity, identified: map<Name, nat>)
    requires identified == if id.table in w.identified then st.identified[id.table := 1] else st.identified
    ensures Moves(w, st, st.(registrations := st.registrations[id.table := id], identified := identified))
  {
  }

  lemma PersistMoves(h: Hash, w: World, st: Storage, moved: seq<FamilyIdentity>, stored: FamilyIdentity,
                     evolved: FamilyIdentity, rows: seq<Row>)
    requires Homed(w, st.registrations) && st.policy.Some? && Evolves(w, st, stored, evolved)
    ensures var persisted := PersistEvolution(h, st, moved, stored, evolved, rows);
            Moves(w, st, persisted) && persisted.latestCheckpoint == st.latestCheckpoint
                && StoredCut(persisted) == StoredCut(st)
  {
    if rows != [] { DomainAdvance(st.identified, Retracts(stored, rows) + Asserts(evolved, rows)); }
  }

  lemma EvolveMoves(h: Hash, w: World, sys: System, d: Descriptor)
    requires SystemOk(h, w, sys) && Declarable(h, w, sys, d) && Evolving(sys, d) && Carries(sys, d)
    ensures Moves(w, sys.storage, RegisterFamily(h, sys, d).storage)
  {
    var stored, moved :=
        FindTable(sys.catalog, d.family.table).value, Evolved(sys.catalog, d.family.table, d.family).value;
    EvolveStepIs(h, w, sys, d);
    LandingInv(h, w, sys.storage, sys.catalog, d, stored, StepFor(d, stored).value);
    PersistMoves(h, w, sys.storage, moved, stored, d.family, CarriedRows(sys, d));
    if CarriedRows(sys, d) != [] {
      var persisted := Persisted(h, sys, d);
      MaintainMoves(h, w, sys.storage, persisted, moved, EngagedAt(sys).GetOr(Sequence(persisted)));
    }
  }

  lemma RegisterNewIs(h: Hash, sys: System, d: Descriptor)
    requires !Evolving(sys, d)
    ensures var st, next := sys.storage, RegisterFamily(h, sys, d).storage;
            next == st || next == st.(registrations := st.registrations[d.family.table := d.family])
  {
    MismatchNamesTable(sys.catalog, d.family);
  }

  lemma RegisterNewMoves(h: Hash, w: World, sys: System, d: Descriptor)
    requires d.family.table !in w.identified && !Evolving(sys, d)
    ensures Moves(w, sys.storage, RegisterFamily(h, sys, d).storage)
  {
    var st, registrations := sys.storage, sys.storage.registrations[d.family.table := d.family];
    RegisterNewIs(h, sys, d);
    NewMoves(w, st, d.family, st.identified);
    assert st.(registrations := registrations, identified := st.identified) == st.(registrations := registrations);
  }

  lemma RegisterMoves(h: Hash, w: World, sys: System, d: Descriptor)
    requires SystemOk(h, w, sys) && Declarable(h, w, sys, d)
    ensures Moves(w, sys.storage, RegisterFamily(h, sys, d).storage)
  {
    if !Evolving(sys, d) {
      RegisterNewMoves(h, w, sys, d);
    } else if Carries(sys, d) {
      EvolveMoves(h, w, sys, d);
    } else {
      RefusedEvolution(h, sys, d);
    }
  }

  lemma CommitDeclarationMoves(h: Hash, w: World, sys: System, d: Descriptor)
    requires SystemOk(h, w, sys) && Landable(w, sys, d)
    ensures Moves(w, sys.storage, Committed(h, sys, OfDeclaration(d)).storage)
  {
    if !Evolving(sys, d) {
      RegisterNewMoves(h, w, sys, d);
    } else if Carries(sys, d) {
      var stored := FindTable(sys.catalog, d.family.table).value;
      var moved := Evolved(sys.catalog, d.family.table, d.family).value;
      LandingInv(h, w, sys.storage, sys.catalog, d, stored, StepFor(d, stored).value);
      PersistMoves(h, w, sys.storage, moved, stored, d.family, CarriedRows(sys, d));
    } else {
      RefusedEvolution(h, sys, d);
    }
  }

  lemma CommitMoves(h: Hash, w: World, sys: System, c: Commitment)
    requires SystemOk(h, w, sys) && Legal(h, w, sys, CommitOnly(c))
    ensures Moves(w, sys.storage, Committed(h, sys, c).storage)
  {
    match c {
      case OfCall(call) =>
        if sys.build.None? {
          DirectAppends(h, w, sys.storage, sys.catalog, call);
          DoneMoves(h, w, sys, Direct(h, sys.storage, sys.catalog, call), false, 0);
        }
      case OfGroup(writes) =>
        AtomicAppends(h, w, sys.storage, sys.catalog, writes);
        DoneMoves(h, w, sys, CommitAtomic(h, sys.storage, sys.catalog, writes), false, 0);
      case OfDeclaration(d) => CommitDeclarationMoves(h, w, sys, d);
    }
  }

  lemma RegisterIdentifiedMoves(st: Storage, catalog: seq<FamilyIdentity>, id: FamilyIdentity, w: World)
    requires id.table in w.identified
    ensures Moves(w, st, RegisterIdentified(st, catalog, id).storage)
  {
    NewMoves(w, st, id, st.identified[id.table := 1]);
  }

  // ---- Staging and recovery ----

  lemma {:induction false} AppendsKeepCheckpoints(st: Storage, entries: seq<Entry>)
    ensures var st' := AppendEntries(st, entries);
            st'.latestCheckpoint == st.latestCheckpoint && st'.checkpoints == st.checkpoints
                && st'.registrations == st.registrations
  {
    if entries != [] { AppendsKeepCheckpoints(st, entries[..|entries| - 1]); }
  }

  lemma LandedMoves(h: Hash, w: World, st: Storage, intent: Option<Intent>)
    requires st.slot.Some? && GroupOk(h, w, st, st.slot.value)
    ensures var st' := AppendEntries(st, st.slot.value.entries).(slot := None, intent := intent);
            Moves(w, st, st') && st'.latestCheckpoint == st.latestCheckpoint && StoredCut(st') == StoredCut(st)
  {
    AppendsKeepCheckpoints(st, st.slot.value.entries);
    AppendMeaning(st, st.slot.value.entries);
    if KeysExact(w, st) { CurrentKeepsKeys(w, st, AllOps(st.slot.value.entries)); }
  }

  lemma MaterializeMoves(h: Hash, w: World, sys: System)
    requires SlotOk(h, w, sys.storage)
    ensures var st' := MaterializeStep(h, w, sys).storage;
            Moves(w, sys.storage, st') && st'.latestCheckpoint == sys.storage.latestCheckpoint
                && StoredCut(st') == StoredCut(sys.storage)
  {
    var m := Materialize(h, sys.storage, w.identified, sys.build.Some?);
    MaterializeStepIs(h, w, sys);
    if m.result.Ok? { LandedMoves(h, w, sys.storage, m.storage.intent); }
  }

  /** Past its first phase a resumed plan moves history and the intent only. */
  ghost predicate Tidied(a: Storage, b: Storage, catalog: seq<FamilyIdentity>) {
    Recut(a, b, catalog) && OnlyHistory(a.(intent := b.intent), b)
  }

  lemma TidiedTrans(a: Storage, b: Storage, c: Storage, catalog: seq<FamilyIdentity>)
    requires Tidied(a, b, catalog) && Tidied(b, c, catalog)
    ensures Tidied(a, c, catalog)
  {
    RecutTrans(a, b, c, catalog);
  }

  lemma IntentTidies(a: Storage, b: Storage, c: Storage, catalog: seq<FamilyIdentity>)
    requires Recut(a, b, catalog) && OnlyHistory(a, b) && c == b.(intent := c.intent)
    ensures Tidied(a, c, catalog)
  {
  }

  lemma TidyPublish(h: Hash, w: World, st: Storage, catalog: seq<FamilyIdentity>, final: Option<nat>,
                    fault: Option<Fault>)
    requires Inv(h, w, st, catalog)
    ensures Tidied(st, PublishCheckpoint(h, st, catalog, final, fault).storage, catalog)
  {
    var st' := PublishCheckpoint(h, st, catalog, final, fault).storage;
    PublishIs(h, st, catalog, final, fault);
    if final.Some? {
      var covered := CoverPlan(h, st, catalog, final.value).storage;
      CoverIs(h, st, catalog, final.value);
      WriteRecuts(h, w, st, catalog);
      WriteMovesCheckpoints(h, st, catalog);
      IntentTidies(st, covered, st', catalog);
    }
  }

  lemma TidyFloor(h: Hash, w: World, st: Storage, catalog: seq<FamilyIdentity>, current: nat, fault: Option<Fault>)
    requires Inv(h, w, st, catalog) && st.policy.Some? && MaintainClear(h, st, catalog, current)
    ensures Tidied(st, AdvanceFloor(h, st, catalog, current, fault).storage, catalog)
  {
    FloorIs(h, st, catalog, current, fault);
    MaintainRecuts(h, w, st, catalog, current);
    MaintainMovesHistory(h, st, catalog, current);
    IntentTidies(st, Maintain(h, st, catalog, current).storage, AdvanceFloor(h, st, catalog, current, fault).storage,
                 catalog);
  }

  lemma TidyPhase(h: Hash, w: World, sys: System, fault: Option<Fault>)
    requires Inv(h, w, sys.storage, sys.catalog) && sys.storage.policy.Some? && !Planning(sys.storage)
    requires PhaseClear(h, sys.storage, sys.catalog, EngagedAt(sys))
    ensures Tidied(sys.storage, AfterPhase(h, w, sys, fault).storage, sys.catalog)
  {
    PhaseIs(h, w, sys, fault);
    match sys.storage.intent {
      case None =>
      case Some(Intent(Applied, final)) => TidyPublish(h, w, sys.storage, sys.catalog, final, fault);
      case Some(Intent(Checkpointed, _)) =>
        TidyFloor(h, w, sys.storage, sys.catalog, EngagedAt(sys).GetOr(Sequence(sys.storage)), fault);
    }
  }

  lemma StaysClear(h: Hash, w: World, sys: System, fault: Option<Fault>)
    requires !Planning(sys.storage) && ResumeClear(h, sys.storage, sys.catalog, w.identified, EngagedAt(sys), fault)
    requires RunPhase(h, sys.storage, sys.catalog, w.identified, EngagedAt(sys), fault).more == Ok(true)
    ensures var p, after :=
            RunPhase(h, sys.storage, sys.catalog, w.identified, EngagedAt(sys), fault), AfterPhase(h, w, sys, fault);
            && !Planning(after.storage)
               && ResumeClear(h, after.storage, after.catalog, w.identified, EngagedAt(after), p.fault)
            && Rank(after.storage.intent) < Rank(sys.storage.intent) && after.catalog == sys.catalog
  {
    PhaseDescends(h, sys.storage, sys.catalog, w.identified, EngagedAt(sys), fault);
  }

  lemma {:induction false} TidyResume(h: Hash, w: World, sys: System, fault: Option<Fault>)
    requires SystemOk(h, w, sys) && !Planning(sys.storage)
    requires ResumeClear(h, sys.storage, sys.catalog, w.identified, EngagedAt(sys), fault)
    ensures Tidied(sys.storage, ResumeStep(h, w, sys, fault).storage, sys.catalog)
    decreases Rank(sys.storage.intent)
  {
    var p, after :=
        RunPhase(h, sys.storage, sys.catalog, w.identified, EngagedAt(sys), fault), AfterPhase(h, w, sys, fault);
    TidyPhase(h, w, sys, fault);
    ResumeByPhase(h, w, sys, fault);
    if p.more == Ok(true) {
      PhaseOk(h, w, sys, fault);
      StaysClear(h, w, sys, fault);
      TidyResume(h, w, after, p.fault);
      TidiedTrans(sys.storage, after.storage, ResumeStep(h, w, after, p.fault).storage, sys.catalog);
    }
  }

  lemma TidyMoves(w: World, a: Storage, b: Storage, c: Storage, catalog: seq<FamilyIdentity>)
    requires Moves(w, a, b) && b.latestCheckpoint == a.latestCheckpoint && StoredCut(b) == StoredCut(a)
    requires Tidied(b, c, catalog) && Lists(catalog, b.registrations) && DistinctTables(catalog)
    ensures Moves(w, a, c)
  {
    RecutRelists(b, c, catalog);
  }

  lemma TidyResumeMoves(h: Hash, w: World, sys: System, fault: Option<Fault>)
    requires SystemOk(h, w, sys) && !Planning(sys.storage)
    requires ResumeClear(h, sys.storage, sys.catalog, w.identified, EngagedAt(sys), fault)
    ensures Moves(w, sys.storage, ResumeStep(h, w, sys, fault).storage)
  {
    TidyResume(h, w, sys, fault);
    TidyMoves(w, sys.storage, sys.storage, ResumeStep(h, w, sys, fault).storage, sys.catalog);
  }

  lemma PlannedResumeMoves(h: Hash, w: World, sys: System, fault: Option<Fault>)
    requires SystemOk(h, w, sys) && Planning(sys.storage)
    requires ResumeClear(h, sys.storage, sys.catalog, w.identified, EngagedAt(sys), fault)
    ensures Moves(w, sys.storage, ResumeStep(h, w, sys, fault).storage)
  {
    var p, after :=
        RunPhase(h, sys.storage, sys.catalog, w.identified, EngagedAt(sys), fault), AfterPhase(h, w, sys, fault);
    PlannedPhaseMoves(h, w, sys, fault);
    ResumeByPhase(h, w, sys, fault);
    if p.more == Ok(true) {
      PhaseOk(h, w, sys, fault);
      PhaseDescends(h, sys.storage, sys.catalog, w.identified, EngagedAt(sys), fault);
      TidyResume(h, w, after, p.fault);
      TidyMoves(w, sys.storage, after.storage, ResumeStep(h, w, after, p.fault).storage, sys.catalog);
    }
  }

  lemma PlannedPhaseMoves(h: Hash, w: World, sys: System, fault: Option<Fault>)
    requires SystemOk(h, w, sys) && Planning(sys.storage)
    ensures var st' := AfterPhase(h, w, sys, fault).storage;
            && Moves(w, sys.storage, st') && st'.latestCheckpoint == sys.storage.latestCheckpoint
            && StoredCut(st') == StoredCut(sys.storage)
  {
    PhaseIs(h, w, sys, fault);
    MaterializeMoves(h, w, sys);
  }

  lemma ResumeMoves(h: Hash, w: World, sys: System, fault: Option<Fault>)
    requires SystemOk(h, w, sys)
    requires ResumeClear(h, sys.storage, sys.catalog, w.identified, EngagedAt(sys), fault)
    ensures Moves(w, sys.storage, ResumeStep(h, w, sys, fault).storage)
  {
    if Planning(sys.storage) { PlannedResumeMoves(h, w, sys, fault); } else { TidyResumeMoves(h, w, sys, fault); }
  }

  lemma RecutMoves(w: World, a: Storage, b: Storage, catalog: seq<FamilyIdentity>)
    requires Recut(a, b, catalog) && OnlyHistory(a, b) && Lists(catalog, a.registrations) && DistinctTables(catalog)
    ensures Moves(w, a, b)
  {
    RecutRelists(a, b, catalog);
  }

  lemma CutMoves(h: Hash, w: World, sys: System)
    requires SystemOk(h, w, sys)
    ensures Moves(w, sys.storage, CutStep(h, sys).storage)
  {
    WriteRecuts(h, w, sys.storage, sys.catalog);
    WriteMovesCheckpoints(h, sys.storage, sys.catalog);
    RecutMoves(w, sys.storage, WriteCheckpoint(h, sys.storage, sys.catalog).Or(sys.storage), sys.catalog);
  }

  lemma CompactMoves(h: Hash, w: World, sys: System, maximum: nat, ack: Acknowledgement)
    requires SystemOk(h, w, sys) && Legal(h, w, sys, CompactNow(maximum, ack))
    ensures Moves(w, sys.storage, CompactStep(h, sys, maximum, ack).storage)
  {
    var st' := CompactHistory(h, sys.storage, sys.catalog, Runs.Current(sys), maximum, ack).storage;
    CompactRecuts(h, w, sys.storage, sys.catalog, Runs.Current(sys), maximum, ack);
    CompactMovesHistory(h, sys.storage, sys.catalog, Runs.Current(sys), maximum, ack);
    RecutMoves(w, sys.storage, st', sys.catalog);
  }

  /** The slot, the intent or the cursor moved. */
  lemma AsideMoves(w: World, a: Storage, b: Storage)
    requires b == a.(slot := b.slot, intent := b.intent, cursor := b.cursor)
    ensures Moves(w, a, b)
  {
  }

  lemma StepMoves(h: Hash, w: World, sys: System, step: Step)
    requires SystemOk(h, w, sys) && Legal(h, w, sys, step)
    ensures Moves(w, sys.storage, Next(h, w, sys, step).storage)
  {
    match step {
      case Issue(call) => IssueMoves(h, w, sys, call);
      case IssueAtomic(writes) => IssueGroupMoves(h, w, sys, writes);
      case Register(d) => RegisterMoves(h, w, sys, d);
      case RegisterAndReopen(d) => RegisterMoves(h, w, sys, d);
      case RegisterIdentifiedTable(id) => RegisterIdentifiedMoves(sys.storage, sys.catalog, id, w);
      case CommitOnly(c) => CommitMoves(h, w, sys, c);
      case CutCheckpointNow => CutMoves(h, w, sys);
      case CompactNow(maximum, ack) => CompactMoves(h, w, sys, maximum, ack);
      case RebuildTables => RebuildOk(h, w, sys);
      case AcknowledgeMirror(head) =>
        AcknowledgeMoves(sys.storage, head);
        AsideMoves(w, sys.storage, Acknowledge(sys.storage, head).storage);
      case MaterializeStaged => MaterializeMoves(h, w, sys);
      case ResumePlan(fault) => ResumeMoves(h, w, sys, fault);
      case ParkStaged =>
        SlotStepsAside(sys, None);
        AsideMoves(w, sys.storage, ParkStep(sys).storage);
      case ParkPlan(fault) =>
        SlotStepsAside(sys, fault);
        AsideMoves(w, sys.storage, ParkPlanStep(sys, fault).storage);
      case DiscardStaged =>
        SlotStepsAside(sys, None);
        AsideMoves(w, sys.storage, DiscardStep(sys).storage);
      case _ =>
        SessionStepsAside(h, sys);
        AsideMoves(w, sys.storage, sys.storage);
    }
  }

  // ---- The store at the latest cut ----

  /** What was registered and counted when the latest checkpoint was cut, and how
      many entries had been appended. */
  datatype Cut = Cut(registrations: map<Name, FamilyIdentity>, identified: map<Name, nat>, at: nat)

  function CutOf(sys: System): Cut { Cut(sys.storage.registrations, sys.storage.identified, |sys.history|) }

  /** Where the latest checkpoint of a run was cut. */
  function LastCut(h: Hash, w: World, start: System, steps: seq<Step>): Cut {
    if steps == [] then CutOf(start)
    else
      var before, after := After(h, w, start, steps[..|steps| - 1]), After(h, w, start, steps);
      if after.storage.latestCheckpoint != before.storage.latestCheckpoint then CutOf(after)
      else LastCut(h, w, start, steps[..|steps| - 1])
  }

  /** The stored checkpoint is the record of that cut. */
  ghost predicate Recorded(w: World, st: Storage, history: seq<Entry>, cut: Cut) {
    StoredCut(st).Some? ==>
      var s := StoredCut(st).value;
      && BindAll(map[], s.inventory.families) == cut.registrations
         && CountAll(map[], s.inventory.counters) == cut.identified
      && s.last == cut.at <= |history|
      && CountAlike(cut.identified, AdvanceIdentified(map[], AllOps(history[..cut.at])))
      && (forall t {:trigger t in cut.identified} ::
            t in cut.identified <==> t in cut.registrations && t in w.identified)
  }

  lemma KeptRecord(w: World, a: Storage, b: Storage, before: seq<Entry>, after: seq<Entry>, cut: Cut)
    requires Recorded(w, a, before, cut) && StoredCut(b) == StoredCut(a) && before <= after
    ensures Recorded(w, b, after, cut)
  {
    if StoredCut(a).Some? { assert after[..cut.at] == before[..cut.at]; }
  }

  lemma NewRecord(w: World, sys: System)
    requires StoredCut(sys.storage).Some? && Faithful(StoredCut(sys.storage).value, sys.storage)
             && KeysExact(w, sys.storage)
    requires Counted(sys.storage, sys.history) && |sys.history| == Sequence(sys.storage)
    ensures Recorded(w, sys.storage, sys.history, CutOf(sys))
  {
    assert sys.history[..|sys.history|] == sys.history;
  }

  lemma StepRecords(h: Hash, w: World, sys: System, step: Step, cut: Cut)
    requires SystemOk(h, w, sys) && Legal(h, w, sys, step) && KeysExact(w, sys.storage)
             && Recorded(w, sys.storage, sys.history, cut)
    ensures var next := Next(h, w, sys, step);
            && SystemOk(h, w, next) && KeysExact(w, next.storage)
            && Recorded(w, next.storage, next.history,
                        if next.storage.latestCheckpoint != sys.storage.latestCheckpoint then CutOf(next) else cut)
  {
    var next := Next(h, w, sys, step);
    StepMoves(h, w, sys, step);
    StepOk(h, w, sys, step);
    HistoryGrows(h, w, sys, step);
    SystemCounts(h, w, next);
    if next.storage.latestCheckpoint != sys.storage.latestCheckpoint {
      NewRecord(w, next);
    } else {
      KeptRecord(w, sys.storage, next.storage, sys.history, next.history, cut);
    }
  }

  lemma SystemCounts(h: Hash, w: World, sys: System)
    requires SystemOk(h, w, sys)
    ensures Counted(sys.storage, sys.history) && |sys.history| == Sequence(sys.storage)
  {
  }

  lemma {:induction false} RunRecords(h: Hash, w: World, policy: Policy, steps: seq<Step>)
    requires AllLegal(h, w, Created(policy), steps)
    ensures var sys := After(h, w, Created(policy), steps);
            && SystemOk(h, w, sys) && KeysExact(w, sys.storage)
            && Recorded(w, sys.storage, sys.history, LastCut(h, w, Created(policy), steps))
  {
    if steps == [] {
      CreatedOk(h, w, policy);
    } else {
      var init := steps[..|steps| - 1];
      RunRecords(h, w, policy, init);
      StepRecords(h, w, After(h, w, Created(policy), init), steps[|steps| - 1], LastCut(h, w, Created(policy), init));
    }
  }

  // ---- What the suffix decides ----

  ghost predicate AssertsIdentified(ops: seq<LogOperation>) {
    exists i :: 0 <= i < |ops| && ops[i].operation.Assert? && ops[i].key.Some? && ops[i].key.value.Identifier?
  }

  lemma {:induction false} NoAssertKeepsCounters(identified: map<Name, nat>, ops: seq<LogOperation>)
    requires !AssertsIdentified(ops)
    ensures AdvanceIdentified(identified, ops) == identified
  {
    if ops != [] {
      var init := ops[..|ops| - 1];
      assert !AssertsIdentified(init) by {
        forall i | 0 <= i < |init| ensures !(init[i].operation.Assert? && init[i].key.Some?
                                             && init[i].key.value.Identifier?) {
          assert init[i] == ops[i];
        }
      }
      NoAssertKeepsCounters(identified, init);
    }
  }

  lemma {:induction false} AllOpsConcat(a: seq<Entry>, b: seq<Entry>)
    ensures AllOps(a + b) == AllOps(a) + AllOps(b)
  {
    if b == [] {
      assert a + b == a;
    } else {
      assert (a + b)[..|a + b| - 1] == a + b[..|b| - 1];
      AllOpsConcat(a, b[..|b| - 1]);
    }
  }

  /** From a cut on, the counters are the cut's advanced by the later entries. */
  lemma CountersSince(st: Storage, history: seq<Entry>, cut: Cut)
    requires Counted(st, history) && cut.at <= |history|
    requires CountAlike(cut.identified, AdvanceIdentified(map[], AllOps(history[..cut.at])))
    ensures Mints(cut.identified, AllOps(history[cut.at..]))
    ensures CountAlike(st.identified, AdvanceIdentified(cut.identified, AllOps(history[cut.at..])))
  {
    var pre, post := AllOps(history[..cut.at]), AllOps(history[cut.at..]);
    var base := AdvanceIdentified(map[], pre);
    assert history == history[..cut.at] + history[cut.at..];
    AllOpsConcat(history[..cut.at], history[cut.at..]);
    MintsConcat(map[], pre, post);
    AdvanceConcat(map[], pre, post);
    CountBack(cut.identified, base);
    MintsAlike(base, cut.identified, post);
    AdvanceAlike(cut.identified, base, post);
    CountThrough(st.identified, AdvanceIdentified(base, post), AdvanceIdentified(cut.identified, post));
  }

  lemma CountBack(a: map<Name, nat>, b: map<Name, nat>)
    requires CountAlike(a, b)
    ensures CountAlike(b, a)
  {
    forall t ensures NextIdentifier(b, t) == NextIdentifier(a, t) { assert t in a || t !in a; }
  }

  lemma CountThrough(a: map<Name, nat>, b: map<Name, nat>, c: map<Name, nat>)
    requires CountAlike(a, b) && CountAlike(c, b)
    ensures CountAlike(a, c)
  {
    forall t ensures NextIdentifier(a, t) == NextIdentifier(c, t) {
      assert (t in a || t !in a) && (t in c || t !in c);
    }
  }

  /** With the registrations of the cut, the counters are the cut's exactly when no
      later entry minted an identifier. */
  lemma CountersUnmoved(w: World, st: Storage, history: seq<Entry>, cut: Cut)
    requires Counted(st, history) && KeysExact(w, st) && Recorded(w, st, history, cut) && StoredCut(st).Some?
    requires cut.registrations == st.registrations
    ensures cut.identified == st.identified <==> !AssertsIdentified(AllOps(history[cut.at..]))
  {
    var post := AllOps(history[cut.at..]);
    CountersSince(st, history, cut);
    if i :| 0 <= i < |post| && post[i].operation.Assert? && post[i].key.Some? && post[i].key.value.Identifier? {
      var t, id := post[i].family.table, post[i].key.value.id;
      MintedBelow(cut.identified, post, t);
      assert MintsAt(post[i], t, id);
      assert t in st.identified || t !in st.identified;
    } else {
      NoAssertKeepsCounters(cut.identified, post);
      SameCounters(w, st, cut);
    }
  }

  lemma SameCounters(w: World, st: Storage, cut: Cut)
    requires KeysExact(w, st) && cut.registrations == st.registrations && CountAlike(st.identified, cut.identified)
    requires forall t {:trigger t in cut.identified} ::
               t in cut.identified <==> t in cut.registrations && t in w.identified
    ensures cut.identified == st.identified
  {
    forall t
      ensures t in cut.identified <==> t in st.identified
      ensures t in cut.identified && t in st.identified ==> cut.identified[t] == st.identified[t]
    {
      assert t in st.identified ==> NextIdentifier(st.identified, t) == NextIdentifier(cut.identified, t);
    }
  }

  // ---- What an import restores of a reachable store ----

  lemma LedgerStamped(h: Hash, w: World, st: Storage, history: seq<Entry>)
    requires Chronicle(h, w, st, history) && Retains(st, history) && CheckpointsStamped(h, st)
    ensures Stamped(h, st)
  {
    forall e | e in st.versioned ensures e.snapshot == e.sequence {
      var i :| 0 <= i < |st.versioned| && st.versioned[i] == e;
      assert e == history[|history| - |st.versioned| + i];
    }
  }

  lemma SuffixOfTail(entries: seq<Entry>, history: seq<Entry>, last: nat)
    requires Tail(entries, history) && |history| - |entries| <= last <= |history|
    requires forall i :: 0 <= i < |entries| ==> EntryRowSequence(entries[i]) == |history| - |entries| + 1 + i
    ensures EntriesFrom(entries, last + 1) == history[last..]
  {
    FromConsecutive(entries, EntryRowSequence, last + 1, |history|);
    TailSuffix(entries, history, |history| - last);
  }

  lemma SuffixIsTail(st: Storage, history: seq<Entry>, k: Checkpoint)
    requires Sequenced(st) && CoversOk(st, Some(k)) && Tail(st.versioned, history) && |history| == Sequence(st)
    ensures EntriesFrom(st.versioned, k.metadata.last + 1) == history[k.metadata.last..]
  {
    SuffixOfTail(st.versioned, history, k.metadata.last);
  }

  /** The checkpoint's inventory is still the store's exactly when the registrations
      are those of its cut and the suffix minted no identifier. */
  lemma InventoryUnmoved(w: World, st: Storage, history: seq<Entry>, cut: Cut, m: Metadata)
    requires Counted(st, history) && KeysExact(w, st) && Recorded(w, st, history, cut)
    requires StoredCut(st) == Some(Stored(m.inventory, m.last))
    ensures m.last <= |history|
    ensures InventoryCurrent(st, m)
            <==> cut.registrations == st.registrations && !AssertsIdentified(AllOps(history[m.last..]))
  {
    if cut.registrations == st.registrations { CountersUnmoved(w, st, history, cut); }
  }

  lemma SystemStamped(h: Hash, w: World, sys: System)
    requires SystemOk(h, w, sys)
    ensures Inv(h, w, sys.storage, sys.catalog) && Stamped(h, sys.storage)
  {
    LedgerStamped(h, w, sys.storage, sys.history);
  }

  /** What the run invariant says of the latest checkpoint. */
  lemma SystemCovers(h: Hash, w: World, sys: System, k: Checkpoint)
    requires SystemOk(h, w, sys) && LatestCheckpoint(h, sys.storage) == Ok(Some(k))
    ensures Sequenced(sys.storage) && CoversOk(sys.storage, Some(k)) && Tail(sys.storage.versioned, sys.history)
    ensures Counted(sys.storage, sys.history) && |sys.history| == Sequence(sys.storage)
  {
  }

  lemma RecordDecides(h: Hash, w: World, st: Storage, history: seq<Entry>, cut: Cut, k: Checkpoint)
    requires KeysExact(w, st) && Recorded(w, st, history, cut) && LatestCheckpoint(h, st) == Ok(Some(k))
    requires Sequenced(st) && CoversOk(st, Some(k)) && Tail(st.versioned, history) && Counted(st, history)
             && |history| == Sequence(st)
    ensures var suffix := EntriesFrom(st.versioned, k.metadata.last + 1);
            InventoryCurrent(st, k.metadata)
            <==> cut.registrations == st.registrations && !AssertsIdentified(AllOps(suffix))
  {
    LatestIs(h, st, k);
    SuffixIsTail(st, history, k);
    InventoryUnmoved(w, st, history, cut, k.metadata);
  }

  /** An import into a fresh store gives back the rows, and gives back everything
      the next writes depend on if and only if the suffix is not empty and mints no
      identifier, and the registrations are those of the checkpoint's cut. */
  lemma ImportRestoresSystem(h: Hash, w: World, sys: System, cut: Cut, k: Checkpoint)
    requires SystemOk(h, w, sys) && KeysExact(w, sys.storage) && Recorded(w, sys.storage, sys.history, cut)
    requires LatestCheckpoint(h, sys.storage) == Ok(Some(k))
    ensures Restores(h, w, sys.storage, cut, k)
  {
    SystemStamped(h, w, sys);
    SystemCovers(h, w, sys, k);
    RestoresFrom(h, w, sys.storage, sys.catalog, sys.history, cut, k);
  }

  ghost predicate Restores(h: Hash, w: World, st: Storage, cut: Cut, k: Checkpoint) {
    var suffix := EntriesFrom(st.versioned, k.metadata.last + 1);
    var out := ApplyImport(h, EmptyStore(st.policy), [], w.identified, k, suffix);
    && out.result.Ok? && out.storage.versioned == suffix && out.storage.tables == st.tables
    && (SameCore(out.storage, st)
        <==> suffix != [] && !AssertsIdentified(AllOps(suffix)) && cut.registrations == st.registrations)
  }

  lemma RestoresFrom(h: Hash, w: World, st: Storage, catalog: seq<FamilyIdentity>, history: seq<Entry>, cut: Cut,
                     k: Checkpoint)
    requires Inv(h, w, st, catalog) && Stamped(h, st) && LatestCheckpoint(h, st) == Ok(Some(k))
    requires KeysExact(w, st) && Recorded(w, st, history, cut)
    requires Sequenced(st) && CoversOk(st, Some(k)) && Tail(st.versioned, history) && Counted(st, history)
             && |history| == Sequence(st)
    ensures Restores(h, w, st, cut, k)
  {
    ImportRestores(h, w, st, catalog, k);
    RecordDecides(h, w, st, history, cut, k);
  }

  /** ... for every store a legal run reaches. */
  lemma ReachableImportRestores(h: Hash, w: World, policy: Policy, steps: seq<Step>, k: Checkpoint)
    requires AllLegal(h, w, Created(policy), steps)
    requires LatestCheckpoint(h, After(h, w, Created(policy), steps).storage) == Ok(Some(k))
    ensures Restores(h, w, After(h, w, Created(policy), steps).storage, LastCut(h, w, Created(policy), steps), k)
  {
    RunRecords(h, w, policy, steps);
    ImportRestoresSystem(h, w, After(h, w, Created(policy), steps), LastCut(h, w, Created(policy), steps), k);
  }

  /** A store restored of a reachable one lives on like it: it satisfies the
      invariant, and later requests commit, deliver and mint the same on both. */
  lemma ReachableImportContinues(h: Hash, w: World, policy: Policy, steps: seq<Step>, k: Checkpoint,
                                 requests: seq<Request>)
    requires AllLegal(h, w, Created(policy), steps)
    requires LatestCheckpoint(h, After(h, w, Created(policy), steps).storage) == Ok(Some(k))
    requires var st := After(h, w, Created(policy), steps).storage;
             var suffix := EntriesFrom(st.versioned, k.metadata.last + 1);
             suffix != [] && !AssertsIdentified(AllOps(suffix))
                 && LastCut(h, w, Created(policy), steps).registrations == st.registrations
    ensures var sys := After(h, w, Created(policy), steps);
            var suffix := EntriesFrom(sys.storage.versioned, k.metadata.last + 1);
            var out := ApplyImport(h, EmptyStore(sys.storage.policy), [], w.identified, k, suffix);
            Inv(h, w, out.storage, out.catalog)
                && ServesAlike(h, out.storage, out.catalog, sys.storage, sys.catalog, requests)
  {
    RunRecords(h, w, policy, steps);
    ContinuesSystem(h, w, After(h, w, Created(policy), steps), LastCut(h, w, Created(policy), steps), k, requests);
  }

  lemma ContinuesSystem(h: Hash, w: World, sys: System, cut: Cut, k: Checkpoint, requests: seq<Request>)
    requires SystemOk(h, w, sys) && KeysExact(w, sys.storage) && Recorded(w, sys.storage, sys.history, cut)
    requires LatestCheckpoint(h, sys.storage) == Ok(Some(k)) && cut.registrations == sys.storage.registrations
    requires var suffix := EntriesFrom(sys.storage.versioned, k.metadata.last + 1);
             suffix != [] && !AssertsIdentified(AllOps(suffix))
    ensures var suffix := EntriesFrom(sys.storage.versioned, k.metadata.last + 1);
            var out := ApplyImport(h, EmptyStore(sys.storage.policy), [], w.identified, k, suffix);
            Inv(h, w, out.storage, out.catalog)
                && ServesAlike(h, out.storage, out.catalog, sys.storage, sys.catalog, requests)
  {
    SystemStamped(h, w, sys);
    SystemCovers(h, w, sys, k);
    RecordDecides(h, w, sys.storage, sys.history, cut, k);
    ImportedStoreContinues(h, w, sys.storage, sys.catalog, k, EntriesFrom(sys.storage.versioned, k.metadata.last + 1),
                           requests);
  }

  // ---- Runs that register nothing after the cut ----

  predicate Registers(step: Step) {
    || step.Register? || step.RegisterAndReopen? || step.RegisterIdentifiedTable?
    || (step.CommitOnly? && step.commitment.OfDeclaration?)
  }

  lemma MaintainedKeeps(h: Hash, done: Done, catalog: seq<FamilyIdentity>, current: nat)
    ensures Maintained(h, done, catalog, current).storage.registrations == done.storage.registrations
  {
    MaintainedIs(h, done, catalog, current);
    MaintainMovesHistory(h, done.storage, catalog, current);
  }

  lemma PerformKeeps(h: Hash, st: Storage, catalog: seq<FamilyIdentity>, call: Call)
    ensures Perform(h, st, catalog, call).storage.registrations == st.registrations
  {
    var done := Direct(h, st, catalog, call);
    DirectIs(h, st, catalog, call);
    PerformIs(h, st, catalog, call);
    MaintainedKeeps(h, done, catalog, Sequence(done.storage));
  }

  lemma AtomicKeeps(h: Hash, st: Storage, catalog: seq<FamilyIdentity>, engaged: Option<nat>, writes: seq<Write>)
    ensures PerformAtomic(h, st, catalog, engaged, writes).storage.registrations == st.registrations
  {
    var done := CommitAtomic(h, st, catalog, writes);
    MaintainedKeeps(h, done, catalog, engaged.GetOr(Sequence(done.storage)));
  }

  lemma MaterializeKeeps(h: Hash, w: World, sys: System)
    ensures MaterializeStep(h, w, sys).storage.registrations == sys.storage.registrations
  {
    if sys.storage.slot.Some? { AppendsKeepCheckpoints(sys.storage, sys.storage.slot.value.entries); }
  }

  lemma PhaseKeeps(h: Hash, w: World, sys: System, fault: Option<Fault>)
    requires sys.storage.policy.Some?
    ensures AfterPhase(h, w, sys, fault).storage.registrations == sys.storage.registrations
  {
    PhaseIs(h, w, sys, fault);
    match sys.storage.intent {
      case None =>
      case Some(Intent(Planned, _)) => MaterializeKeeps(h, w, sys);
      case Some(Intent(Applied, final)) =>
        PublishIs(h, sys.storage, sys.catalog, final, fault);
        if final.Some? { CoverIs(h, sys.storage, sys.catalog, final.value); }
        WriteMovesCheckpoints(h, sys.storage, sys.catalog);
      case Some(Intent(Checkpointed, _)) =>
        var current := EngagedAt(sys).GetOr(Sequence(sys.storage));
        FloorIs(h, sys.storage, sys.catalog, current, fault);
        MaintainMovesHistory(h, sys.storage, sys.catalog, current);
    }
  }

  lemma {:induction false} ResumeKeeps(h: Hash, w: World, sys: System, fault: Option<Fault>)
    requires sys.storage.policy.Some?
    ensures ResumeStep(h, w, sys, fault).storage.registrations == sys.storage.registrations
    decreases Rank(sys.storage.intent)
  {
    var p := RunPhase(h, sys.storage, sys.catalog, w.identified, EngagedAt(sys), fault);
    PhaseKeeps(h, w, sys, fault);
    PhaseSteady(h, w, sys, fault);
    ResumeByPhase(h, w, sys, fault);
    if p.more == Ok(true) {
      PhaseDescends(h, sys.storage, sys.catalog, w.identified, EngagedAt(sys), fault);
      ResumeKeeps(h, w, AfterPhase(h, w, sys, fault), p.fault);
    }
  }

  lemma CommitRegisters(h: Hash, sys: System, c: Commitment)
    requires !c.OfDeclaration?
    ensures Committed(h, sys, c).storage.registrations == sys.storage.registrations
  {
    if c.OfCall? { DirectIs(h, sys.storage, sys.catalog, c.call); }
  }

  lemma RebuildRegisters(h: Hash, w: World, sys: System)
    ensures RebuildStep(h, w, sys).storage.registrations == sys.storage.registrations
  {
  }

  lemma AcknowledgeRegisters(h: Hash, w: World, sys: System, head: MirrorHead)
    ensures AcknowledgeStep(sys, head).storage.registrations == sys.storage.registrations
  {
  }

  /** Only registrations and evolutions move the registered families. */
  lemma OnlyRegistrationsRegister(h: Hash, w: World, sys: System, step: Step)
    requires sys.storage.policy.Some? && !Registers(step)
    ensures Next(h, w, sys, step).storage.registrations == sys.storage.registrations
  {
    var st, catalog := sys.storage, sys.catalog;
    match step {
      case RebuildTables => RebuildRegisters(h, w, sys);
      case AcknowledgeMirror(head) => AcknowledgeRegisters(h, w, sys, head);
      case DiscardStaged => SlotStepsAside(sys, None);
      case Issue(call) => PerformKeeps(h, st, catalog, call);
      case IssueAtomic(writes) => AtomicKeeps(h, st, catalog, EngagedAt(sys), writes);
      case CommitOnly(c) => CommitRegisters(h, sys, c);
      case CutCheckpointNow => WriteMovesCheckpoints(h, st, catalog);
      case CompactNow(maximum, ack) => CompactMovesHistory(h, st, catalog, Runs.Current(sys), maximum, ack);
      case MaterializeStaged => MaterializeKeeps(h, w, sys);
      case ResumePlan(fault) => ResumeKeeps(h, w, sys, fault);
      case ParkStaged => SlotStepsAside(sys, None);
      case ParkPlan(fault) => SlotStepsAside(sys, fault);
      case _ => SessionStepsAside(h, sys);
    }
  }

  /** The `n`th step cut the checkpoint that is still the latest, and no later step
      registers or evolves a family. */
  ghost predicate QuietSince(h: Hash, w: World, start: System, steps: seq<Step>, n: nat)
    decreases |steps|
  {
    && 0 < n <= |steps|
    && var init := steps[..|steps| - 1];
       var before, after := After(h, w, start, init).storage, After(h, w, start, steps).storage;
       if |steps| == n then after.latestCheckpoint != before.latestCheckpoint
       else !Registers(steps[|steps| - 1]) && after.latestCheckpoint == before.latestCheckpoint
            && QuietSince(h, w, start, init, n)
  }

  lemma {:induction false} QuietKeepsFamilies(h: Hash, w: World, policy: Policy, steps: seq<Step>, n: nat)
    requires AllLegal(h, w, Created(policy), steps) && QuietSince(h, w, Created(policy), steps, n)
    ensures LastCut(h, w, Created(policy), steps).registrations ==
              After(h, w, Created(policy), steps).storage.registrations
    decreases |steps|
  {
    if |steps| > n {
      var init := steps[..|steps| - 1];
      QuietKeepsFamilies(h, w, policy, init, n);
      CreatedOk(h, w, policy);
      RunAdvances(h, w, Created(policy), init);
      OnlyRegistrationsRegister(h, w, After(h, w, Created(policy), init), steps[|steps| - 1]);
    }
  }

  /** When nothing was registered or evolved since the latest checkpoint was cut, an
      import restores the store if and only if the suffix is not empty and holds no
      identified assert. */
  lemma QuietImportRestores(h: Hash, w: World, policy: Policy, steps: seq<Step>, n: nat, k: Checkpoint)
    requires AllLegal(h, w, Created(policy), steps) && QuietSince(h, w, Created(policy), steps, n)
    requires LatestCheckpoint(h, After(h, w, Created(policy), steps).storage) == Ok(Some(k))
    ensures var st := After(h, w, Created(policy), steps).storage;
            var suffix := EntriesFrom(st.versioned, k.metadata.last + 1);
            SameCore(ApplyImport(h, EmptyStore(st.policy), [], w.identified, k, suffix).storage, st)
            <==> suffix != [] && !AssertsIdentified(AllOps(suffix))
  {
    QuietKeepsFamilies(h, w, policy, steps, n);
    ReachableImportRestores(h, w, policy, steps, k);
  }

  /** The registrations of the cut, not the absence of evolutions, decide: a family
      evolved and evolved back while it is empty leaves the store as it was. */
  lemma EvolvedBackIsUnmoved(h: Hash, st: Storage, moved: seq<FamilyIdentity>, back: seq<FamilyIdentity>,
                             a: FamilyIdentity, b: FamilyIdentity)
    requires a.table == b.table && a.table in st.registrations && st.registrations[a.table] == a
    ensures PersistEvolution(h, PersistEvolution(h, st, moved, a, b, []), back, b, a, []) == st
  {
    assert st.registrations[b.table := b][a.table := a] == st.registrations;
  }
}
