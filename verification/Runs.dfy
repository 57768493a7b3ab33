// Whole runs of the engine: every step, in any order, with crashes in between.
module Runs {
  import opened ByteStrings
  import opened Errors
  import opened Versioning
  import opened CanonicalViews
  import opened Checkpoints
  import opened Catalogs
  import opened Stores
  import opened Invariants
  import opened Histories
  import opened Retention
  import opened Writes
  import opened Evolution
  import opened Rebuilding
  import opened Staging
  import opened StagingLaws
  import opened StagingSafety
  import opened Recovery
  import opened Imports
  import opened Ledgers
  import opened Lifetimes
  import LogSlots

  /** A session, and the inventory the engine held when it was engaged. */
  datatype Build = Build(session: Session, inventory: seq<FamilyIdentity>)

  /** The durable store, what the running engine holds in memory, and every entry
      ever appended. */
  datatype System = System(storage: Storage, catalog: seq<FamilyIdentity>, build: Option<Build>, history: seq<Entry>)

  /** A write that maintains its history once it has committed. */
  datatype Commitment = OfCall(call: Call) | OfGroup(writes: seq<Write>) | OfDeclaration(descriptor: Descriptor)

  datatype Step =
    | Issue(call: Call)
    | IssueAtomic(writes: seq<Write>)
    | Register(descriptor: Descriptor)
    | RegisterAndReopen(descriptor: Descriptor)  // a declaration at startup, and a restart after it
    | RegisterIdentifiedTable(identity: FamilyIdentity)
    | CommitOnly(commitment: Commitment)  // the commit of a write, cut short before its maintenance
    | CutCheckpointNow
    | CompactNow(maximum: nat, acknowledgement: Acknowledgement)
    | RebuildTables
    | AcknowledgeMirror(head: MirrorHead)
    | BeginStaged
    | ParkStaged
    | AbandonStaged
    | DiscardStaged
    | MaterializeStaged
    | BeginPlan
    | ParkPlan(fault: Option<Fault>)
    | ResumePlan(fault: Option<Fault>)
    | Reopen  // a crash or a restart: only durable state survives

  function EngagedAt(sys: System): Option<nat> {
    if sys.build.Some? then Some(sys.build.value.session.latestSequence) else None
  }
  function SessionOf(sys: System): Option<Session> { if sys.build.Some? then Some(sys.build.value.session) else None }
  function Current(sys: System): nat { EngagedAt(sys).GetOr(Sequence(sys.storage)) }

  function Began(sys: System, session: Result<Session>): System {
    if session.Ok? then sys.(build := Some(Build(session.value, sys.catalog))) else sys
  }

  /** The entries a materialize of the slot appends. */
  function Landed(st: Storage, landed: bool): seq<Entry> {
    if landed && st.slot.Some? then st.slot.value.entries else []
  }

  function IssueCall(h: Hash, sys: System, call: Call): System {
    match sys.build
    case Some(b) => sys.(build := Some(b.(session := StagedCall(h, sys.storage, sys.catalog, b.session, call).session)))
    case None =>
      sys.(storage := Perform(h, sys.storage, sys.catalog, call).storage,
           history := sys.history + Added(sys.storage, Direct(h, sys.storage, sys.catalog, call).storage))
  }

  function IssueGroup(h: Hash, sys: System, writes: seq<Write>): System {
    sys.(storage := PerformAtomic(h, sys.storage, sys.catalog, EngagedAt(sys), writes).storage,
         history := sys.history + Added(sys.storage, CommitAtomic(h, sys.storage, sys.catalog, writes).storage))
  }

  /** A declared step carries every stored row forward: the evolution is written. */
  predicate Carries(sys: System, d: Descriptor) {
    var stored := FindTable(sys.catalog, d.family.table);
    && stored.Some? && StepFor(d, stored.value).Some?
    && Carried(sys.storage, d, StepFor(d, stored.value).value).Ok?
    && Evolved(sys.catalog, d.family.table, d.family).Ok?
  }

  function CarriedRows(sys: System, d: Descriptor): seq<Row>
    requires Carries(sys, d)
  {
    Carried(sys.storage, d, StepFor(d, FindTable(sys.catalog, d.family.table).value).value).value
  }

  /** What it writes, before any maintenance. */
  function Persisted(h: Hash, sys: System, d: Descriptor): Storage
    requires Carries(sys, d)
  {
    var stored := FindTable(sys.catalog, d.family.table).value;
    PersistEvolution(h, sys.storage, Evolved(sys.catalog, d.family.table, d.family).value, stored, d.family,
                     CarriedRows(sys, d))
  }

  predicate Evolving(sys: System, d: Descriptor) {
    FamilyRegistrationState(sys.catalog, d.family) == Err(FamilyIdentityMismatch(d.family.table))
  }

  function RegisterFamily(h: Hash, sys: System, d: Descriptor): System {
    var out := RegisterTable(h, sys.storage, sys.catalog, EngagedAt(sys), d);
    sys.(storage := out.storage, catalog := out.catalog,
         history := sys.history + if Evolving(sys, d) && Carries(sys, d) then Added(sys.storage, Persisted(h, sys, d))
             else [])
  }

  /** A write up to its own commit: what a crash before its maintenance finds. A cut
      after it is what a crash between the maintenance checkpoint and the trim finds. */
  function Committed(h: Hash, sys: System, c: Commitment): System {
    match c
    case OfCall(call) =>
      if sys.build.Some? then IssueCall(h, sys, call)
      else CommittedAs(sys, Direct(h, sys.storage, sys.catalog, call).storage, sys.catalog)
    case OfGroup(writes) => CommittedAs(sys, CommitAtomic(h, sys.storage, sys.catalog, writes).storage, sys.catalog)
    case OfDeclaration(d) =>
      if Evolving(sys, d) && Carries(sys, d)
      then CommittedAs(sys, Persisted(h, sys, d), Evolved(sys.catalog, d.family.table, d.family).value)
      else RegisterFamily(h, sys, d)
  }

  function CommittedAs(sys: System, committed: Storage, catalog: seq<FamilyIdentity>): System {
    sys.(storage := committed, catalog := catalog, history := sys.history + Added(sys.storage, committed))
  }

  // ---- One function per step ----

  function RegisterIdentifiedStep(sys: System, id: FamilyIdentity): System {
    var out := RegisterIdentified(sys.storage, sys.catalog, id);
    sys.(storage := out.storage, catalog := out.catalog)
  }

  function CutStep(h: Hash, sys: System): System {
    sys.(storage := WriteCheckpoint(h, sys.storage, sys.catalog).Or(sys.storage))
  }

  function CompactStep(h: Hash, sys: System, maximum: nat, ack: Acknowledgement): System {
    sys.(storage := CompactHistory(h, sys.storage, sys.catalog, Current(sys), maximum, ack).storage)
  }

  function RebuildStep(h: Hash, w: World, sys: System): System {
    sys.(storage := Rebuild(h, sys.storage, sys.catalog, w.identified).storage)
  }

  function AcknowledgeStep(sys: System, head: MirrorHead): System {
    sys.(storage := Acknowledge(sys.storage, head).storage)
  }

  function BeginStep(h: Hash, sys: System): System {
    Began(sys, Begin(h, sys.storage, sys.catalog, SessionOf(sys)))
  }

  function ParkStep(sys: System): System { sys.(storage := Park(sys.storage, SessionOf(sys)).storage, build := None) }

  function AbandonStep(sys: System): System { sys.(build := None) }

  function DiscardStep(sys: System): System { sys.(storage := Discard(sys.storage).storage) }

  function MaterializeStep(h: Hash, w: World, sys: System): System {
    var m := Materialize(h, sys.storage, w.identified, sys.build.Some?);
    sys.(storage := m.storage, history := sys.history + Landed(sys.storage, m.result.Ok?))
  }

  function BeginPlanStep(h: Hash, sys: System): System {
    Began(sys, BeginCompaction(h, sys.storage, sys.catalog, SessionOf(sys)))
  }

  function ParkPlanStep(sys: System, fault: Option<Fault>): System {
    sys.(storage := ParkCompaction(sys.storage, SessionOf(sys), fault).storage, build := None)
  }

  function ResumeStep(h: Hash, w: World, sys: System, fault: Option<Fault>): System {
    var st := sys.storage;
    sys.(storage := Resume(h, st, sys.catalog, w.identified, EngagedAt(sys), fault).storage,
         history := sys.history + Landed(st, Planning(st)
                                         && Materialize(h, st, w.identified, sys.build.Some?).result.Ok?))
  }

  function Next(h: Hash, w: World, sys: System, step: Step): System {
    match step
    case Issue(call) => IssueCall(h, sys, call)
    case IssueAtomic(writes) => IssueGroup(h, sys, writes)
    case Register(d) => RegisterFamily(h, sys, d)
    case RegisterAndReopen(d) => Reopened(RegisterFamily(h, sys, d))
    case RegisterIdentifiedTable(id) => RegisterIdentifiedStep(sys, id)
    case CommitOnly(c) => Committed(h, sys, c)
    case CutCheckpointNow => CutStep(h, sys)
    case CompactNow(maximum, ack) => CompactStep(h, sys, maximum, ack)
    case RebuildTables => RebuildStep(h, w, sys)
    case AcknowledgeMirror(head) => AcknowledgeStep(sys, head)
    case BeginStaged => BeginStep(h, sys)
    case ParkStaged => ParkStep(sys)
    case AbandonStaged => AbandonStep(sys)
    case DiscardStaged => DiscardStep(sys)
    case MaterializeStaged => MaterializeStep(h, w, sys)
    case BeginPlan => BeginPlanStep(h, sys)
    case ParkPlan(fault) => ParkPlanStep(sys, fault)
    case ResumePlan(fault) => ResumeStep(h, w, sys, fault)
    case Reopen => Reopened(sys)
  }

  /** Only durable state survives; the inventory is listed again in table order. */
  function Reopened(sys: System): System { sys.(catalog := CatalogRows(sys.storage.registrations), build := None) }

  predicate Planning(st: Storage) { st.intent.Some? && st.intent.value.phase.Planned? }

  // ---- What a parked group and an engaged session rely on ----

  /** A parked group was built at or before the store's sequence; if nothing was
      committed since, it is still in place. */
  ghost predicate SlotOk(h: Hash, w: World, st: Storage) {
    st.slot.Some? ==>
      var g := st.slot.value;
      && g.entries != [] && g.entries[0].sequence <= Sequence(st) + 1
      && (g.entries[0].sequence == Sequence(st) + 1 ==> GroupOk(h, w, st, g))
  }

  /** So was an engaged session; the slot is empty while one is open. */
  ghost predicate BuildOk(h: Hash, w: World, st: Storage, build: Option<Build>) {
    build.Some? ==>
      var s := build.value.session;
      && st.slot.None? && s.base.sequence <= Sequence(st)
      && (s.base.sequence == Sequence(st) ==> SessionOk(h, w, st, build.value.inventory, s))
  }

  /** Nothing a group or a session relies on has moved. */
  ghost predicate Standing(a: Storage, b: Storage) {
    && a.policy == b.policy && a.head == b.head && Sequence(a) == Sequence(b) && Snapshot(a) == Snapshot(b)
       && a.slot == b.slot
    && (forall t :: t in a.registrations ==> t in b.registrations && a.registrations[t] == b.registrations[t])
    && CountAlike(a.identified, b.identified)
  }

  lemma CurrentStands(w: World, a: map<Name, FamilyIdentity>, b: map<Name, FamilyIdentity>, ops: seq<LogOperation>)
    requires AllCurrent(w, a, ops) && forall t :: t in a ==> t in b && a[t] == b[t]
    ensures AllCurrent(w, b, ops)
  {
  }

  lemma SlotStands(h: Hash, w: World, a: Storage, b: Storage)
    requires SlotOk(h, w, a) && Standing(a, b)
    ensures SlotOk(h, w, b)
  {
    if a.slot.Some? && a.slot.value.entries[0].sequence == Sequence(a) + 1 {
      CurrentStands(w, a.registrations, b.registrations, AllOps(a.slot.value.entries));
      MintsAlike(a.identified, b.identified, AllOps(a.slot.value.entries));
    }
  }

  lemma PendingStands(a: map<Name, nat>, b: map<Name, nat>, s: Session)
    requires CountAlike(a, b) && PendingOk(a, s)
    ensures PendingOk(b, s)
  {
    var x, y := AdvanceIdentified(a, AllOps(s.entries)), AdvanceIdentified(b, AllOps(s.entries));
    AdvanceAlike(a, b, AllOps(s.entries));
    forall t ensures NextMint(s, b, t) == NextIdentifier(y, t) {
      assert t in a || t !in a;
      assert t in x || t !in x;
      assert t in s.pending || t !in s.pending;
    }
  }

  lemma StandsAtStands(h: Hash, a: Storage, b: Storage, s: Session)
    requires StandsAt(s, Shadow(a, s)) && Verifies(h, a, s) && a.head == b.head && Sequence(a) == Sequence(b)
             && Snapshot(a) == Snapshot(b)
    ensures StandsAt(s, Shadow(b, s)) && Verifies(h, b, s)
  {
    AppendMeaning(a, s.entries);
    AppendMeaning(b, s.entries);
    GroupCursor(h, b, s.entries);
  }

  lemma SessionStands(h: Hash, w: World, a: Storage, b: Storage, inventory: seq<FamilyIdentity>, s: Session)
    requires SessionOk(h, w, a, inventory, s) && Standing(a, b)
    ensures SessionOk(h, w, b, inventory, s)
  {
    CurrentStands(w, a.registrations, b.registrations, AllOps(s.entries));
    MintsAlike(a.identified, b.identified, AllOps(s.entries));
    PendingStands(a.identified, b.identified, s);
    StandsAtStands(h, a, b, s);
    forall c | c in s.base.starts ensures NextIdentifier(b.identified, c.table) == c.next {
      assert c.table in a.identified || c.table !in a.identified;
    }
  }

  lemma BuildStands(h: Hash, w: World, a: Storage, b: Storage, build: Option<Build>)
    requires BuildOk(h, w, a, build) && Standing(a, b)
    ensures BuildOk(h, w, b, build)
  {
    if build.Some? && build.value.session.base.sequence == Sequence(a) {
      SessionStands(h, w, a, b, build.value.inventory, build.value.session);
    }
  }

  /** After any commit both are behind for good. */
  lemma CommitLeavesBehind(h: Hash, w: World, a: Storage, b: Storage, build: Option<Build>)
    requires SlotOk(h, w, a) && BuildOk(h, w, a, build) && a.slot == b.slot && Sequence(b) > Sequence(a)
    ensures SlotOk(h, w, b) && BuildOk(h, w, b, build)
  {
  }

  // ---- The invariant of a run ----

  ghost predicate SystemOk(h: Hash, w: World, sys: System) {
    && Sound(h, w, sys.storage, sys.catalog, sys.history)
    && SlotOk(h, w, sys.storage) && BuildOk(h, w, sys.storage, sys.build)
  }

  /** A newly created store under a versioning policy. */
  function Created(policy: Policy): System { System(EmptyStore(Some(policy)), [], None, []) }

  lemma CreatedOk(h: Hash, w: World, policy: Policy)
    ensures SystemOk(h, w, Created(policy))
  {
    EmptyInv(h, w, Some(policy));
    EmptyLedger(h, w, policy);
  }

  // ---- What a run may not do ----

  /** The checkpoint one phase of a resumed plan cuts, if it cuts one, does not collide. */
  ghost predicate PhaseClear(h: Hash, st: Storage, catalog: seq<FamilyIdentity>, engaged: Option<nat>) {
    match st.intent
    case None => true
    case Some(Intent(Planned, _)) => true
    case Some(Intent(Applied, final)) => final.Some? ==> CoverClear(h, st, catalog, final.value)
    case Some(Intent(Checkpointed, _)) => MaintainClear(h, st, catalog, engaged.GetOr(Sequence(st)))
  }

  /** ... nor does any the whole run cuts. */
  ghost predicate ResumeClear(h: Hash, st: Storage, catalog: seq<FamilyIdentity>, directory: Directory,
                              engaged: Option<nat>, fault: Option<Fault>)
    decreases Rank(st.intent)
  {
    var p := RunPhase(h, st, catalog, directory, engaged, fault);
    && PhaseClear(h, st, catalog, engaged)
    && (p.more == Ok(true) ==>
          (PhaseDescends(h, st, catalog, directory, engaged, fault);
           ResumeClear(h, p.storage, catalog, directory, engaged, p.fault)))
  }

  /** Nothing still in place writes the table. */
  ghost predicate Untouched(sys: System, table: Name) {
    && (sys.storage.slot.Some? && sys.storage.slot.value.entries != []
        && sys.storage.slot.value.entries[0].sequence == Sequence(sys.storage) + 1 ==>
          forall op :: op in AllOps(sys.storage.slot.value.entries) ==> op.family.table != table)
    && (sys.build.Some? && sys.build.value.session.base.sequence == Sequence(sys.storage) ==>
          forall op :: op in AllOps(sys.build.value.session.entries) ==> op.family.table != table)
  }

  /** The evolution of a family with rows would fail in its maintenance. */
  predicate EvolutionBlocked(h: Hash, sys: System) {
    Blocked(sys.storage, LatestCheckpoint(h, sys.storage).Or(None), EngagedAt(sys).GetOr(Sequence(sys.storage) + 1),
            |sys.storage.versioned| + 1)
  }

  /** A declaration of this world that leaves what is still in place alone. */
  ghost predicate Landable(w: World, sys: System, d: Descriptor) {
    && w.Home(d.family.Key()) == d.family.table && d.family.table !in w.identified
    && (Evolving(sys, d) && Carries(sys, d) && CarriedRows(sys, d) == [] ==> Untouched(sys, d.family.table))
  }

  /** ... whose maintenance, if it cuts a checkpoint, cuts one that does not collide. */
  ghost predicate Declarable(h: Hash, w: World, sys: System, d: Descriptor) {
    && Landable(w, sys, d)
    && (Evolving(sys, d) && Carries(sys, d) && CarriedRows(sys, d) != [] ==>
            var persisted, moved := Persisted(h, sys, d), Evolved(sys.catalog, d.family.table, d.family).value;
            MaintainClear(h, persisted, moved, EngagedAt(sys).GetOr(Sequence(persisted))))
  }

  /** The conditions the engine relies on without enforcing them: the key
      discipline of domain tables, one table per family version, checkpoint
      segments that do not collide, and no evolution of an empty family whose table
      a group still in place writes. An evolution of a blocked store leaves memory
      behind disk, so a restart must follow it. */
  ghost predicate Legal(h: Hash, w: World, sys: System, step: Step) {
    var st, catalog := sys.storage, sys.catalog;
    match step
    case Issue(call) =>
      var done := Direct(h, st, catalog, call);
      && Disciplined(w, call)
      && (sys.build.None? && IsDomainCall(call) && done.result.Ok? ==>
            MaintainClear(h, done.storage, catalog, Sequence(done.storage)))
    case IssueAtomic(writes) =>
      var done := CommitAtomic(h, st, catalog, writes);
      && DisciplinedWrites(w, writes)
      && (done.result.Ok? ==>
            MaintainClear(h, done.storage, catalog, EngagedAt(sys).GetOr(Sequence(done.storage))))
    case Register(d) =>
      Declarable(h, w, sys, d)
          && (Evolving(sys, d) && Carries(sys, d) && CarriedRows(sys, d) != [] ==> !EvolutionBlocked(h, sys))
    case RegisterAndReopen(d) => Declarable(h, w, sys, d)
    case RegisterIdentifiedTable(id) => w.Home(id.Key()) == id.table && (id.table in w.identified)
    case CommitOnly(OfCall(call)) => Disciplined(w, call)
    case CommitOnly(OfGroup(writes)) => DisciplinedWrites(w, writes)
    case CommitOnly(OfDeclaration(d)) => Landable(w, sys, d)
    case CutCheckpointNow => Collisionless(h, st, catalog)
    case CompactNow(maximum, ack) => CompactClear(h, st, catalog, Current(sys), maximum, ack)
    case ResumePlan(fault) => ResumeClear(h, st, catalog, w.identified, EngagedAt(sys), fault)
    case _ => true
  }

  // ---- Each step keeps the invariant ----

  lemma HistoryStands(a: Storage, b: Storage)
    requires OnlyHistory(a, b)
    ensures Standing(a, b)
  {
  }

  lemma HistoryKeepsGroups(h: Hash, w: World, a: Storage, b: Storage, build: Option<Build>)
    requires OnlyHistory(a, b) && SlotOk(h, w, a) && BuildOk(h, w, a, build)
    ensures SlotOk(h, w, b) && BuildOk(h, w, b, build)
  {
    HistoryStands(a, b);
    SlotStands(h, w, a, b);
    BuildStands(h, w, a, b, build);
  }

  lemma AddedOne(st: Storage, e: Entry)
    ensures Added(st, AppendEntry(st, e)) == [e] && Added(st, st) == []
    ensures AppendEntry(st, e).slot == st.slot && Sequence(AppendEntry(st, e)) == e.sequence
  {
  }

  lemma Nothing<T>(s: seq<T>)
    ensures s + [] == s
  {
  }

  /** A commit of one accepted entry. */
  lemma CommitOk(h: Hash, w: World, sys: System, e: Entry)
    requires SystemOk(h, w, sys) && NextOk(h, w, sys.storage, e)
             && AllCurrent(w, sys.storage.registrations, e.operations)
    ensures SystemOk(h, w, sys.(storage := AppendEntry(sys.storage, e), history := sys.history + [e]))
  {
    AppendSound(h, w, sys.storage, sys.catalog, sys.history, e);
    AddedOne(sys.storage, e);
    CommitLeavesBehind(h, w, sys.storage, AppendEntry(sys.storage, e), sys.build);
  }

  lemma MaintainOk(h: Hash, w: World, sys: System, current: nat)
    requires SystemOk(h, w, sys) && MaintainClear(h, sys.storage, sys.catalog, current)
    ensures SystemOk(h, w, sys.(storage := Maintain(h, sys.storage, sys.catalog, current).storage))
  {
    MaintainSound(h, w, sys.storage, sys.catalog, sys.history, current);
    MaintainMovesHistory(h, sys.storage, sys.catalog, current);
    HistoryKeepsGroups(h, w, sys.storage, Maintain(h, sys.storage, sys.catalog, current).storage, sys.build);
  }

  lemma MaintainedIs(h: Hash, done: Done, catalog: seq<FamilyIdentity>, current: nat)
    ensures Maintained(h, done, catalog, current).storage ==
            if done.result.Err? then done.storage else Maintain(h, done.storage, catalog, current).storage
  {
  }

  /** A refused or accepted commit, and the maintenance that may follow it. */
  lemma DoneOk(h: Hash, w: World, sys: System, done: Done, maintains: bool, current: nat)
    requires SystemOk(h, w, sys)
    requires done.result.Err? ==> done.storage == sys.storage
    requires done.result.Ok? ==> exists e :: done.storage == AppendEntry(sys.storage, e) && NextOk(h, w, sys.storage, e)
                                             && AllCurrent(w, sys.storage.registrations, e.operations)
    requires maintains && done.result.Ok? ==> MaintainClear(h, done.storage, sys.catalog, current)
    ensures var kept := if maintains then Maintained(h, done, sys.catalog, current).storage else done.storage;
            SystemOk(h, w, sys.(storage := kept, history := sys.history + Added(sys.storage, done.storage)))
  {
    MaintainedIs(h, done, sys.catalog, current);
    if done.result.Ok? {
      var e :| done.storage == AppendEntry(sys.storage, e) && NextOk(h, w, sys.storage, e)
               && AllCurrent(w, sys.storage.registrations, e.operations);
      CommitOk(h, w, sys, e);
      AddedOne(sys.storage, e);
      if maintains { MaintainOk(h, w, sys.(storage := done.storage, history := sys.history + [e]), current); }
    } else {
      Nothing(sys.history);
    }
  }

  lemma PerformIs(h: Hash, st: Storage, catalog: seq<FamilyIdentity>, call: Call)
    ensures var done := Direct(h, st, catalog, call);
            Perform(h, st, catalog, call).storage ==
            if IsDomainCall(call) then Maintained(h, done, catalog, Sequence(done.storage)).storage else done.storage
  {
  }

  lemma StagedKeepsSession(h: Hash, w: World, st: Storage, catalog: seq<FamilyIdentity>,
                           inventory: seq<FamilyIdentity>, s: Session, call: Call)
    requires CatalogOk(w, st, catalog) && SessionOk(h, w, st, inventory, s) && Disciplined(w, call)
    ensures SessionOk(h, w, st, inventory, StagedCall(h, st, catalog, s, call).session)
  {
    var sh := Shadow(st, s);
    AppendMeaning(st, s.entries);
    CurrentIsPlaced(w, st.registrations, AllOps(s.entries));
    StagedPlanIsShadow(w, st, s, catalog, call);
    AlikeCalls(h, st, catalog, s, sh, call);
    var plan := Plan(sh.tables, sh.identified, catalog, call);
    if plan.Ok? {
      PlanCurrent(w, sh, catalog, call);
      PlanMints(w, sh, catalog, call);
      BufferedKeepsSession(h, w, st, inventory, s, call, plan.value);
    }
  }

  lemma StagedKeepsBase(h: Hash, st: Storage, catalog: seq<FamilyIdentity>, s: Session, call: Call)
    ensures StagedCall(h, st, catalog, s, call).session.base.sequence == s.base.sequence
  {
  }

  lemma EngagedIssueOk(h: Hash, w: World, sys: System, call: Call)
    requires SystemOk(h, w, sys) && Disciplined(w, call) && sys.build.Some?
    ensures SystemOk(h, w, IssueCall(h, sys, call))
  {
    var b := sys.build.value;
    StagedKeepsBase(h, sys.storage, sys.catalog, b.session, call);
    if b.session.base.sequence == Sequence(sys.storage) {
      StagedKeepsSession(h, w, sys.storage, sys.catalog, b.inventory, b.session, call);
    }
  }

  lemma IssueOk(h: Hash, w: World, sys: System, call: Call)
    requires SystemOk(h, w, sys) && Legal(h, w, sys, Issue(call))
    ensures SystemOk(h, w, IssueCall(h, sys, call))
  {
    if sys.build.Some? {
      EngagedIssueOk(h, w, sys, call);
    } else {
      var done := Direct(h, sys.storage, sys.catalog, call);
      DirectAppends(h, w, sys.storage, sys.catalog, call);
      PerformIs(h, sys.storage, sys.catalog, call);
      DoneOk(h, w, sys, done, IsDomainCall(call), Sequence(done.storage));
    }
  }

  lemma IssueGroupOk(h: Hash, w: World, sys: System, writes: seq<Write>)
    requires SystemOk(h, w, sys) && Legal(h, w, sys, IssueAtomic(writes))
    ensures SystemOk(h, w, IssueGroup(h, sys, writes))
  {
    var done := CommitAtomic(h, sys.storage, sys.catalog, writes);
    AtomicAppends(h, w, sys.storage, sys.catalog, writes);
    DoneOk(h, w, sys, done, true, EngagedAt(sys).GetOr(Sequence(done.storage)));
  }

  // ---- Registration ----

  lemma NewOk(h: Hash, w: World, sys: System, id: FamilyIdentity, identified: map<Name, nat>)
    requires SystemOk(h, w, sys) && w.Home(id.Key()) == id.table && FamilyRegistrationState(sys.catalog, id) == Ok(New)
    requires identified == sys.storage.identified || identified == sys.storage.identified[id.table := 1]
    ensures Inserted(sys.catalog, id) == Ok(sys.catalog + [id])
    ensures SystemOk(h, w,
                     sys.(storage := sys.storage.(registrations := sys.storage.registrations[id.table := id],
                                                  identified := identified),
                                catalog := sys.catalog + [id]))
  {
    var st := sys.storage.(registrations := sys.storage.registrations[id.table := id], identified := identified);
    NewSound(h, w, sys.storage, sys.catalog, sys.history, id, identified);
    NewStands(sys.storage, id, identified);
    SlotStands(h, w, sys.storage, st);
    BuildStands(h, w, sys.storage, st, sys.build);
  }

  lemma NewStands(st: Storage, id: FamilyIdentity, identified: map<Name, nat>)
    requires id.table !in st.registrations && st.identified.Keys <= st.registrations.Keys
    requires identified == st.identified || identified == st.identified[id.table := 1]
    ensures Standing(st, st.(registrations := st.registrations[id.table := id], identified := identified))
  {
    NewCounters(st, id.table, identified);
    forall t ensures NextIdentifier(st.identified, t) == NextIdentifier(identified, t) {
      assert t in identified || t !in identified;
    }
  }

  lemma RegisterIdentifiedIs(h: Hash, w: World, sys: System, id: FamilyIdentity)
    ensures var st, next := sys.storage, RegisterIdentifiedStep(sys, id);
            if FamilyRegistrationState(sys.catalog, id) != Ok(New) then next == sys
            else Inserted(sys.catalog, id) == Ok(sys.catalog + [id]) ==>
                   next == sys.(storage := st.(registrations := st.registrations[id.table := id],
                                               identified := st.identified[id.table := 1]),
                                catalog := sys.catalog + [id])
  {
  }

  lemma RegisterIdentifiedOk(h: Hash, w: World, sys: System, id: FamilyIdentity)
    requires SystemOk(h, w, sys) && w.Home(id.Key()) == id.table
    ensures SystemOk(h, w, RegisterIdentifiedStep(sys, id))
  {
    RegisterIdentifiedIs(h, w, sys, id);
    if FamilyRegistrationState(sys.catalog, id) == Ok(New) {
      NewOk(h, w, sys, id, sys.storage.identified[id.table := 1]);
    }
  }

  lemma RegisterNewOk(h: Hash, w: World, sys: System, d: Descriptor)
    requires SystemOk(h, w, sys) && w.Home(d.family.Key()) == d.family.table && !Evolving(sys, d)
    ensures SystemOk(h, w, RegisterFamily(h, sys, d))
  {
    Nothing(sys.history);
    MismatchNamesTable(sys.catalog, d.family);
    if FamilyRegistrationState(sys.catalog, d.family) == Ok(New) {
      NewOk(h, w, sys, d.family, sys.storage.identified);
      var st := sys.storage;
      assert st.(registrations := st.registrations[d.family.table := d.family], identified := st.identified) ==
             st.(registrations := st.registrations[d.family.table := d.family]);
    }
  }

  lemma MismatchNamesTable(catalog: seq<FamilyIdentity>, id: FamilyIdentity)
    ensures FamilyRegistrationState(catalog, id).Err?
            && FamilyRegistrationState(catalog, id).error.FamilyIdentityMismatch?
            ==> FamilyRegistrationState(catalog, id) == Err(FamilyIdentityMismatch(id.table))
  {
  }

  /** The system after an accepted evolution, memory and disk alike. */
  function EvolvedSystem(h: Hash, sys: System, moved: seq<FamilyIdentity>, persisted: Storage, rows: seq<Row>): System {
    sys.(storage := if rows == [] then persisted
         else Maintain(h, persisted, moved, EngagedAt(sys).GetOr(Sequence(persisted))).storage,
         catalog := moved,
         history := sys.history + Added(sys.storage, persisted))
  }

  lemma LandingIs(h: Hash, st: Storage, engaged: Option<nat>, stored: FamilyIdentity, evolved: FamilyIdentity,
                  rows: seq<Row>, moved: seq<FamilyIdentity>)
    ensures var persisted, out :=
            PersistEvolution(h, st, moved, stored, evolved, rows),
                LandEvolution(h, st, engaged, stored, evolved, rows, moved);
            && out.storage ==
                 (if rows == [] then persisted
                  else Maintain(h, persisted, moved, engaged.GetOr(Sequence(persisted))).storage)
            && (out.result.Ok? ==> out.catalog == moved)
            && (rows == [] ==> out.result.Ok?)
  {
  }

  /** What an accepted evolution does: only memory depends on its maintenance. */
  lemma EvolveStepIs(h: Hash, w: World, sys: System, d: Descriptor)
    requires Evolving(sys, d) && Carries(sys, d) && w.Home(d.family.Key()) == d.family.table
             && d.family.table !in w.identified
    ensures var moved := Evolved(sys.catalog, d.family.table, d.family).value;
            var out := RegisterTable(h, sys.storage, sys.catalog, EngagedAt(sys), d);
            && RegisterFamily(h, sys, d) ==
                 EvolvedSystem(h, sys, moved, Persisted(h, sys, d), CarriedRows(sys, d)).(catalog := out.catalog)
            && (out.result.Ok? ==> out.catalog == moved)
            && (CarriedRows(sys, d) == [] ==> out.result.Ok?)
  {
    var stored := FindTable(sys.catalog, d.family.table).value;
    DeclaredIs(h, w, sys.storage, sys.catalog, EngagedAt(sys), d, stored, StepFor(d, stored).value);
    LandingIs(h, sys.storage, EngagedAt(sys), stored, d.family, CarriedRows(sys, d),
              Evolved(sys.catalog, d.family.table, d.family).value);
  }

  /** On disk every accepted evolution is sound, blocked or not. */
  lemma EvolveOk(h: Hash, w: World, sys: System, d: Descriptor)
    requires SystemOk(h, w, sys) && Declarable(h, w, sys, d) && Evolving(sys, d) && Carries(sys, d)
    ensures SystemOk(h, w,
                     EvolvedSystem(h, sys, Evolved(sys.catalog, d.family.table, d.family).value, Persisted(h, sys, d),
                                   CarriedRows(sys, d)))
  {
    var stored := FindTable(sys.catalog, d.family.table).value;
    var moved := Evolved(sys.catalog, d.family.table, d.family).value;
    LandingInv(h, w, sys.storage, sys.catalog, d, stored, StepFor(d, stored).value);
    if CarriedRows(sys, d) == [] {
      EmptyEvolveOk(h, w, sys, moved, stored, d.family);
    } else {
      RowsEvolveOk(h, w, sys, moved, stored, d.family, CarriedRows(sys, d));
    }
  }

  lemma CurrentUntouched(w: World, registrations: map<Name, FamilyIdentity>, evolved: FamilyIdentity,
                         ops: seq<LogOperation>)
    requires AllCurrent(w, registrations, ops) && forall op :: op in ops ==> op.family.table != evolved.table
    ensures AllCurrent(w, registrations[evolved.table := evolved], ops)
  {
  }

  lemma SessionRebinds(h: Hash, w: World, a: Storage, b: Storage, inventory: seq<FamilyIdentity>, s: Session)
    requires SessionOk(h, w, a, inventory, s) && b == a.(registrations := b.registrations)
             && AllCurrent(w, b.registrations, AllOps(s.entries))
    ensures SessionOk(h, w, b, inventory, s)
  {
    StandsAtStands(h, a, b, s);
  }

  /** A group or session that does not write the table outlives its rebinding. */
  lemma UntouchedStands(h: Hash, w: World, sys: System, evolved: FamilyIdentity)
    requires SlotOk(h, w, sys.storage) && BuildOk(h, w, sys.storage, sys.build) && Untouched(sys, evolved.table)
    ensures var b := sys.storage.(registrations := sys.storage.registrations[evolved.table := evolved]);
            SlotOk(h, w, b) && BuildOk(h, w, b, sys.build)
  {
    var a := sys.storage;
    var b := a.(registrations := a.registrations[evolved.table := evolved]);
    if a.slot.Some? && a.slot.value.entries[0].sequence == Sequence(a) + 1 {
      CurrentUntouched(w, a.registrations, evolved, AllOps(a.slot.value.entries));
    }
    if sys.build.Some? && sys.build.value.session.base.sequence == Sequence(a) {
      CurrentUntouched(w, a.registrations, evolved, AllOps(sys.build.value.session.entries));
      SessionRebinds(h, w, a, b, sys.build.value.inventory, sys.build.value.session);
    }
  }

  lemma EmptyEvolveOk(h: Hash, w: World, sys: System, moved: seq<FamilyIdentity>, stored: FamilyIdentity,
                      evolved: FamilyIdentity)
    requires SystemOk(h, w, sys) && Untouched(sys, evolved.table) && Evolves(w, sys.storage, stored, evolved)
    requires Inv(h, w, PersistEvolution(h, sys.storage, moved, stored, evolved, []), moved) && DistinctTables(moved)
    ensures SystemOk(h, w,
                     EvolvedSystem(h, sys, moved, PersistEvolution(h, sys.storage, moved, stored, evolved, []), []))
  {
    EmptyEvolveSound(h, w, sys.storage, sys.catalog, sys.history, moved, stored, evolved);
    UntouchedStands(h, w, sys, evolved);
    Nothing(sys.history);
  }

  /** An evolution with rows is a commit: whatever was built before it is behind. */
  lemma RowsCommitOk(h: Hash, w: World, sys: System, moved: seq<FamilyIdentity>, stored: FamilyIdentity,
                     evolved: FamilyIdentity, rows: seq<Row>)
    requires SystemOk(h, w, sys) && Evolves(w, sys.storage, stored, evolved) && rows != []
    requires Inv(h, w, PersistEvolution(h, sys.storage, moved, stored, evolved, rows), moved) && DistinctTables(moved)
    ensures SystemOk(h, w, CommittedAs(sys, PersistEvolution(h, sys.storage, moved, stored, evolved, rows), moved))
  {
    var persisted := PersistEvolution(h, sys.storage, moved, stored, evolved, rows);
    var e := NextEntry(h, sys.storage, moved, Retracts(stored, rows) + Asserts(evolved, rows));
    RowsEvolveSound(h, w, sys.storage, sys.catalog, sys.history, moved, stored, evolved, rows);
    EvolutionEntry(h, w, sys.storage, moved, stored, evolved, rows);
    AddedEvolution(sys.storage, e, persisted);
    CommitLeavesBehind(h, w, sys.storage, persisted, sys.build);
  }

  lemma RowsEvolveOk(h: Hash, w: World, sys: System, moved: seq<FamilyIdentity>, stored: FamilyIdentity,
                     evolved: FamilyIdentity, rows: seq<Row>)
    requires SystemOk(h, w, sys) && Evolves(w, sys.storage, stored, evolved) && rows != []
    requires Inv(h, w, PersistEvolution(h, sys.storage, moved, stored, evolved, rows), moved) && DistinctTables(moved)
    requires var persisted := PersistEvolution(h, sys.storage, moved, stored, evolved, rows);
             MaintainClear(h, persisted, moved, EngagedAt(sys).GetOr(Sequence(persisted)))
    ensures SystemOk(h, w,
                     EvolvedSystem(h, sys, moved, PersistEvolution(h, sys.storage, moved, stored, evolved, rows), rows))
  {
    var persisted := PersistEvolution(h, sys.storage, moved, stored, evolved, rows);
    RowsCommitOk(h, w, sys, moved, stored, evolved, rows);
    MaintainOk(h, w, CommittedAs(sys, persisted, moved), EngagedAt(sys).GetOr(Sequence(persisted)));
  }

  lemma AddedEvolution(st: Storage, e: Entry, persisted: Storage)
    requires persisted == AppendEntry(st, e).(registrations := persisted.registrations)
    ensures Added(st, persisted) == [e] && persisted.slot == st.slot && Sequence(persisted) == e.sequence
  {
  }

  /** A legal evolution returns success, so memory moved with disk. */
  lemma LegalEvolutionSucceeds(h: Hash, w: World, sys: System, d: Descriptor)
    requires SystemOk(h, w, sys) && Legal(h, w, sys, Register(d)) && Evolving(sys, d) && Carries(sys, d)
    ensures RegisterTable(h, sys.storage, sys.catalog, EngagedAt(sys), d).result.Ok?
  {
    if CarriedRows(sys, d) == [] {
      EvolveStepIs(h, w, sys, d);
    } else {
      var stored := FindTable(sys.catalog, d.family.table).value;
      EvolutionVerdict(h, w, sys.storage, sys.catalog, EngagedAt(sys), d, stored, StepFor(d, stored).value);
    }
  }

  lemma RegisterOk(h: Hash, w: World, sys: System, d: Descriptor)
    requires SystemOk(h, w, sys) && Legal(h, w, sys, Register(d))
    ensures SystemOk(h, w, RegisterFamily(h, sys, d))
  {
    if !Evolving(sys, d) {
      RegisterNewOk(h, w, sys, d);
    } else if Carries(sys, d) {
      EvolveStepIs(h, w, sys, d);
      LegalEvolutionSucceeds(h, w, sys, d);
      EvolveOk(h, w, sys, d);
    } else {
      RefusedEvolution(h, sys, d);
    }
  }

  /** A declaration followed by a restart, also of a blocked store. */
  lemma RegisterAndReopenOk(h: Hash, w: World, sys: System, d: Descriptor)
    requires SystemOk(h, w, sys) && Declarable(h, w, sys, d)
    ensures SystemOk(h, w, Reopened(RegisterFamily(h, sys, d)))
  {
    if !Evolving(sys, d) {
      RegisterNewOk(h, w, sys, d);
      ReopenOk(h, w, RegisterFamily(h, sys, d));
    } else if Carries(sys, d) {
      EvolveStepIs(h, w, sys, d);
      EvolveOk(h, w, sys, d);
      ReopenOk(h, w,
               EvolvedSystem(h, sys, Evolved(sys.catalog, d.family.table, d.family).value, Persisted(h, sys, d),
                             CarriedRows(sys, d)));
    } else {
      RefusedEvolution(h, sys, d);
      ReopenOk(h, w, sys);
    }
  }

  /** A declaration cut short after its commit. */
  lemma CommitDeclarationOk(h: Hash, w: World, sys: System, d: Descriptor)
    requires SystemOk(h, w, sys) && Landable(w, sys, d)
    ensures SystemOk(h, w, Committed(h, sys, OfDeclaration(d)))
  {
    if !Evolving(sys, d) {
      RegisterNewOk(h, w, sys, d);
    } else if !Carries(sys, d) {
      RefusedEvolution(h, sys, d);
    } else {
      var stored := FindTable(sys.catalog, d.family.table).value;
      var moved := Evolved(sys.catalog, d.family.table, d.family).value;
      LandingInv(h, w, sys.storage, sys.catalog, d, stored, StepFor(d, stored).value);
      if CarriedRows(sys, d) == [] {
        EmptyEvolveOk(h, w, sys, moved, stored, d.family);
      } else {
        RowsCommitOk(h, w, sys, moved, stored, d.family, CarriedRows(sys, d));
      }
    }
  }

  /** A commit with no maintenance keeps the invariant whatever the hash. */
  lemma CommitOnlyOk(h: Hash, w: World, sys: System, c: Commitment)
    requires SystemOk(h, w, sys) && Legal(h, w, sys, CommitOnly(c))
    ensures SystemOk(h, w, Committed(h, sys, c))
  {
    match c {
      case OfCall(call) =>
        if sys.build.Some? {
          EngagedIssueOk(h, w, sys, call);
        } else {
          DirectAppends(h, w, sys.storage, sys.catalog, call);
          DoneOk(h, w, sys, Direct(h, sys.storage, sys.catalog, call), false, 0);
        }
      case OfGroup(writes) =>
        AtomicAppends(h, w, sys.storage, sys.catalog, writes);
        DoneOk(h, w, sys, CommitAtomic(h, sys.storage, sys.catalog, writes), false, 0);
      case OfDeclaration(d) => CommitDeclarationOk(h, w, sys, d);
    }
  }

  lemma RefusedEvolution(h: Hash, sys: System, d: Descriptor)
    requires Evolving(sys, d) && !Carries(sys, d)
    ensures RegisterFamily(h, sys, d) == sys
  {
    Nothing(sys.history);
  }

  // ---- Staging and recovery ----

  /** The slot or the intent changed, nothing else. */
  lemma SlotStepOk(h: Hash, w: World, sys: System, slot: Option<StagedGroup>, intent: Option<Intent>,
                   build: Option<Build>)
    requires SystemOk(h, w, sys)
    requires SlotOk(h, w, sys.storage.(slot := slot, intent := intent))
             && BuildOk(h, w, sys.storage.(slot := slot, intent := intent), build)
    ensures SystemOk(h, w, sys.(storage := sys.storage.(slot := slot, intent := intent), build := build))
  {
    SlotSoundness(h, w, sys.storage, sys.catalog, sys.history, slot, intent);
  }

  lemma BeganOk(h: Hash, w: World, sys: System)
    requires SystemOk(h, w, sys)
    ensures SystemOk(h, w, Began(sys, Begin(h, sys.storage, sys.catalog, SessionOf(sys))))
  {
    if Begin(h, sys.storage, sys.catalog, SessionOf(sys)).Ok? { EngagedOk(h, w, sys.storage, sys.catalog); }
  }

  lemma GroupIgnoresSlot(h: Hash, w: World, st: Storage, g: StagedGroup, slot: Option<StagedGroup>,
                         intent: Option<Intent>)
    requires GroupOk(h, w, st, g)
    ensures GroupOk(h, w, st.(slot := slot, intent := intent), g)
  {
  }

  /** A session whose base is current parks a group that is in place. */
  lemma ParkedGroupOk(h: Hash, w: World, st: Storage, b: Build, intent: Option<Intent>)
    requires BuildOk(h, w, st, Some(b)) && BaseCurrent(st, b.session.base) && b.session.entries != []
    ensures SlotOk(h, w, st.(slot := Some(Group(b.session)), intent := intent))
  {
    SessionGroupOk(h, w, st, b.inventory, b.session);
    ParkedNamesItsBase(h, w, st, b.inventory, b.session);
    GroupIgnoresSlot(h, w, st, Group(b.session), Some(Group(b.session)), intent);
  }

  lemma EndBuildOk(h: Hash, w: World, sys: System)
    requires SystemOk(h, w, sys)
    ensures SystemOk(h, w, sys.(build := None))
  {
  }

  /** The system after a park that put the session's group in the slot. */
  function ParkedSystem(sys: System, intent: Option<Intent>): System
    requires sys.build.Some?
  {
    sys.(storage := sys.storage.(slot := Some(Group(sys.build.value.session)), intent := intent), build := None)
  }

  lemma GroupParkedOk(h: Hash, w: World, sys: System, intent: Option<Intent>)
    requires SystemOk(h, w, sys) && sys.build.Some?
    requires BaseCurrent(sys.storage, sys.build.value.session.base) && sys.build.value.session.entries != []
    ensures SystemOk(h, w, ParkedSystem(sys, intent))
  {
    ParkedGroupOk(h, w, sys.storage, sys.build.value, intent);
    SlotStepOk(h, w, sys, Some(Group(sys.build.value.session)), intent, None);
  }

  lemma ParkIs(st: Storage, build: Option<Build>)
    ensures var session := if build.Some? then Some(build.value.session) else None;
            var st' := Park(st, session).storage;
            || st' == st
            || (build.Some? && build.value.session.entries != [] && BaseCurrent(st, build.value.session.base)
                && st' == st.(slot := Some(Group(build.value.session)), intent := st.intent))
  {
  }

  lemma ParkPlanIs(st: Storage, build: Option<Build>, fault: Option<Fault>)
    ensures var session := if build.Some? then Some(build.value.session) else None;
            var st' := ParkCompaction(st, session, fault).storage;
            || st' == st
            || (build.Some? && build.value.session.entries != [] && BaseCurrent(st, build.value.session.base)
                && st' == st.(slot := Some(Group(build.value.session)), intent := Some(Intent(Planned, None))))
  {
  }

  lemma ParkStepIs(h: Hash, w: World, sys: System, fault: Option<Fault>)
    ensures var next := ParkStep(sys);
            || next == sys.(build := None)
            || (sys.build.Some? && sys.build.value.session.entries != []
                && BaseCurrent(sys.storage, sys.build.value.session.base)
                && next == ParkedSystem(sys, sys.storage.intent))
    ensures var next := ParkPlanStep(sys, fault);
            || next == sys.(build := None)
            || (sys.build.Some? && sys.build.value.session.entries != []
                && BaseCurrent(sys.storage, sys.build.value.session.base)
                && next == ParkedSystem(sys, Some(Intent(Planned, None))))
  {
    ParkIs(sys.storage, sys.build);
    ParkPlanIs(sys.storage, sys.build, fault);
  }

  lemma ParkOk(h: Hash, w: World, sys: System)
    requires SystemOk(h, w, sys)
    ensures SystemOk(h, w, ParkStep(sys))
  {
    ParkStepIs(h, w, sys, None);
    if ParkStep(sys) == sys.(build := None) {
      EndBuildOk(h, w, sys);
    } else {
      GroupParkedOk(h, w, sys, sys.storage.intent);
    }
  }

  lemma ParkPlanOk(h: Hash, w: World, sys: System, fault: Option<Fault>)
    requires SystemOk(h, w, sys)
    ensures SystemOk(h, w, ParkPlanStep(sys, fault))
  {
    ParkStepIs(h, w, sys, fault);
    if ParkPlanStep(sys, fault) == sys.(build := None) {
      EndBuildOk(h, w, sys);
    } else {
      GroupParkedOk(h, w, sys, Some(Intent(Planned, None)));
    }
  }

  lemma DiscardOk(h: Hash, w: World, sys: System)
    requires SystemOk(h, w, sys)
    ensures SystemOk(h, w, DiscardStep(sys))
  {
    if Discard(sys.storage).result.Ok? {
      assert sys.storage.(slot := None, intent := sys.storage.intent) == Discard(sys.storage).storage;
      SlotStepOk(h, w, sys, None, sys.storage.intent, sys.build);
    }
  }

  /** An accepted group is in place, so it lands as its entries. */
  lemma AcceptedGroup(h: Hash, w: World, st: Storage, engaged: bool)
    requires SlotOk(h, w, st) && Materialize(h, st, w.identified, engaged).result.Ok?
    ensures !engaged && st.slot.Some? && GroupOk(h, w, st, st.slot.value)
    ensures var m, entries := Materialize(h, st, w.identified, engaged), st.slot.value.entries;
            m.storage == AppendEntries(st, entries).(slot := None, intent := m.storage.intent)
                && Landed(st, true) == entries
  {
    VerifiedStarts(h, st.slot.value.entries, st.head, Sequence(st), Snapshot(st));
    MaterializeIsAppend(h, w, st, st.slot.value);
  }

  /** The system after an accepted materialize. */
  function LandedSystem(sys: System, entries: seq<Entry>, intent: Option<Intent>): System {
    sys.(storage := AppendEntries(sys.storage, entries).(slot := None, intent := intent),
         history := sys.history + entries)
  }

  lemma MaterializeStepIs(h: Hash, w: World, sys: System)
    requires SlotOk(h, w, sys.storage)
    ensures var m := Materialize(h, sys.storage, w.identified, sys.build.Some?);
            if m.result.Err? then MaterializeStep(h, w, sys) == sys
            else
              && sys.build.None? && sys.storage.slot.Some? && GroupOk(h, w, sys.storage, sys.storage.slot.value)
              && MaterializeStep(h, w, sys) ==
                   LandedSystem(sys, sys.storage.slot.value.entries, m.storage.intent)
  {
    if Materialize(h, sys.storage, w.identified, sys.build.Some?).result.Ok? {
      AcceptedGroup(h, w, sys.storage, sys.build.Some?);
    } else {
      Nothing(sys.history);
    }
  }

  lemma LandedOk(h: Hash, w: World, sys: System, intent: Option<Intent>)
    requires SystemOk(h, w, sys) && sys.build.None? && sys.storage.slot.Some?
             && GroupOk(h, w, sys.storage, sys.storage.slot.value)
    ensures SystemOk(h, w, LandedSystem(sys, sys.storage.slot.value.entries, intent))
  {
    LandedSound(h, w, sys.storage, sys.catalog, sys.history, intent);
  }

  lemma MaterializeOk(h: Hash, w: World, sys: System)
    requires SystemOk(h, w, sys)
    ensures SystemOk(h, w, MaterializeStep(h, w, sys))
  {
    var m := Materialize(h, sys.storage, w.identified, sys.build.Some?);
    MaterializeStepIs(h, w, sys);
    if m.result.Ok? { LandedOk(h, w, sys, m.storage.intent); }
  }

  lemma LandedSound(h: Hash, w: World, st: Storage, catalog: seq<FamilyIdentity>, history: seq<Entry>,
                    intent: Option<Intent>)
    requires Sound(h, w, st, catalog, history) && st.slot.Some? && GroupOk(h, w, st, st.slot.value)
    ensures Sound(h, w, AppendEntries(st, st.slot.value.entries).(slot := None, intent := intent), catalog,
                  history + st.slot.value.entries)
  {
    var entries := st.slot.value.entries;
    GroupSound(h, w, st, catalog, history, entries);
    SlotSoundness(h, w, AppendEntries(st, entries), catalog, history + entries, None, intent);
  }

  lemma ReopenOk(h: Hash, w: World, sys: System)
    requires SystemOk(h, w, sys)
    ensures SystemOk(h, w, Reopened(sys))
  {
    ReloadedLists(sys.storage.registrations);
    RowsDistinct(sys.storage.registrations);
  }

  lemma WriteOk(h: Hash, w: World, sys: System)
    requires SystemOk(h, w, sys) && Collisionless(h, sys.storage, sys.catalog)
             && WriteCheckpoint(h, sys.storage, sys.catalog).Ok?
    ensures SystemOk(h, w, sys.(storage := WriteCheckpoint(h, sys.storage, sys.catalog).value))
  {
    WriteSound(h, w, sys.storage, sys.catalog, sys.history);
    WriteMovesCheckpoints(h, sys.storage, sys.catalog);
    HistoryKeepsGroups(h, w, sys.storage, WriteCheckpoint(h, sys.storage, sys.catalog).value, sys.build);
  }

  lemma CompactNowIs(h: Hash, w: World, sys: System, maximum: nat, ack: Acknowledgement)
    ensures CompactStep(h, sys, maximum, ack) ==
            sys.(storage := CompactHistory(h, sys.storage, sys.catalog, Current(sys), maximum, ack).storage)
  {
  }

  lemma CompactOk(h: Hash, w: World, sys: System, maximum: nat, ack: Acknowledgement)
    requires SystemOk(h, w, sys) && CompactClear(h, sys.storage, sys.catalog, Current(sys), maximum, ack)
    ensures SystemOk(h, w, CompactStep(h, sys, maximum, ack))
  {
    CompactNowIs(h, w, sys, maximum, ack);
    CompactedOk(h, w, sys, Current(sys), maximum, ack);
  }

  lemma CompactedOk(h: Hash, w: World, sys: System, current: nat, maximum: nat, ack: Acknowledgement)
    requires SystemOk(h, w, sys) && CompactClear(h, sys.storage, sys.catalog, current, maximum, ack)
    ensures SystemOk(h, w, sys.(storage := CompactHistory(h, sys.storage, sys.catalog, current, maximum, ack).storage))
  {
    CompactSound(h, w, sys.storage, sys.catalog, sys.history, current, maximum, ack);
    CompactMovesHistory(h, sys.storage, sys.catalog, current, maximum, ack);
    HistoryKeepsGroups(h, w, sys.storage,
                       CompactHistory(h, sys.storage, sys.catalog, current, maximum, ack).storage, sys.build);
  }

  /** A rebuild of a sound store changes nothing. */
  lemma RebuildOk(h: Hash, w: World, sys: System)
    requires SystemOk(h, w, sys)
    ensures Rebuild(h, sys.storage, sys.catalog, w.identified).result.Ok? && RebuildStep(h, w, sys) == sys
  {
    RebuildRestores(h, w, sys.storage, sys.catalog, sys.storage.tables);
    assert sys.storage.(tables := sys.storage.tables) == sys.storage;
  }

  lemma AcknowledgeOk(h: Hash, w: World, sys: System, head: MirrorHead)
    requires SystemOk(h, w, sys)
    ensures SystemOk(h, w, AcknowledgeStep(sys, head))
  {
    var st := Acknowledge(sys.storage, head).storage;
    AcknowledgeMoves(sys.storage, head);
    AcknowledgeSound(h, w, sys.storage, sys.catalog, sys.history, head);
    CursorStands(sys.storage, st);
    SlotStands(h, w, sys.storage, st);
    BuildStands(h, w, sys.storage, st, sys.build);
  }

  lemma CursorStands(a: Storage, b: Storage)
    requires b == a.(cursor := b.cursor) || b == a.(intent := b.intent)
    ensures Standing(a, b)
  {
  }

  lemma IntentOk(h: Hash, w: World, sys: System, intent: Option<Intent>)
    requires SystemOk(h, w, sys)
    ensures SystemOk(h, w, sys.(storage := sys.storage.(intent := intent)))
  {
    var st := sys.storage.(intent := intent);
    assert sys.storage.(slot := sys.storage.slot, intent := intent) == st;
    CursorStands(sys.storage, st);
    SlotStands(h, w, sys.storage, st);
    BuildStands(h, w, sys.storage, st, sys.build);
    SlotSoundness(h, w, sys.storage, sys.catalog, sys.history, sys.storage.slot, intent);
  }

  lemma CoverIs(h: Hash, st: Storage, catalog: seq<FamilyIdentity>, final: nat)
    ensures var st' := CoverPlan(h, st, catalog, final).storage; st' == st || WriteCheckpoint(h, st, catalog) == Ok(st')
  {
  }

  lemma PublishIs(h: Hash, st: Storage, catalog: seq<FamilyIdentity>, final: Option<nat>, fault: Option<Fault>)
    ensures var st' := PublishCheckpoint(h, st, catalog, final, fault).storage;
            if final.None? then st' == st
            else
              var covered := CoverPlan(h, st, catalog, final.value).storage;
              st' == covered || st' == covered.(intent := Some(Intent(Checkpointed, final)))
  {
  }

  lemma CoveredOk(h: Hash, w: World, sys: System, final: nat)
    requires SystemOk(h, w, sys) && CoverClear(h, sys.storage, sys.catalog, final)
    ensures SystemOk(h, w, sys.(storage := CoverPlan(h, sys.storage, sys.catalog, final).storage))
  {
    CoverIs(h, sys.storage, sys.catalog, final);
    if CoverPlan(h, sys.storage, sys.catalog, final).storage != sys.storage { WriteOk(h, w, sys); }
  }

  lemma PublishOk(h: Hash, w: World, sys: System, final: Option<nat>, fault: Option<Fault>)
    requires SystemOk(h, w, sys) && (final.Some? ==> CoverClear(h, sys.storage, sys.catalog, final.value))
    ensures SystemOk(h, w, sys.(storage := PublishCheckpoint(h, sys.storage, sys.catalog, final, fault).storage))
  {
    var st' := PublishCheckpoint(h, sys.storage, sys.catalog, final, fault).storage;
    PublishIs(h, sys.storage, sys.catalog, final, fault);
    if final.None? {
      assert sys.(storage := st') == sys;
    } else {
      var mid := sys.(storage := CoverPlan(h, sys.storage, sys.catalog, final.value).storage);
      CoveredOk(h, w, sys, final.value);
      if st' != mid.storage {
        IntentOk(h, w, mid, Some(Intent(Checkpointed, final)));
        assert sys.(storage := st') == mid.(storage := mid.storage.(intent := Some(Intent(Checkpointed, final))));
      }
    }
  }

  lemma FloorIs(h: Hash, st: Storage, catalog: seq<FamilyIdentity>, current: nat, fault: Option<Fault>)
    requires st.policy.Some?
    ensures var st', kept :=
            AdvanceFloor(h, st, catalog, current, fault).storage, Maintain(h, st, catalog, current).storage;
            st' == kept || st' == kept.(intent := None)
  {
    MaintainIs(h, st, catalog, current);
  }

  lemma FloorOk(h: Hash, w: World, sys: System, current: nat, fault: Option<Fault>)
    requires SystemOk(h, w, sys) && MaintainClear(h, sys.storage, sys.catalog, current)
    ensures SystemOk(h, w, sys.(storage := AdvanceFloor(h, sys.storage, sys.catalog, current, fault).storage))
  {
    var st' := AdvanceFloor(h, sys.storage, sys.catalog, current, fault).storage;
    var mid := sys.(storage := Maintain(h, sys.storage, sys.catalog, current).storage);
    MaintainOk(h, w, sys, current);
    FloorIs(h, sys.storage, sys.catalog, current, fault);
    if st' != mid.storage {
      IntentOk(h, w, mid, None);
      assert sys.(storage := st') == mid.(storage := mid.storage.(intent := None));
    }
  }

  /** The system after one phase of a resumed plan. */
  function AfterPhase(h: Hash, w: World, sys: System, fault: Option<Fault>): System {
    sys.(storage := RunPhase(h, sys.storage, sys.catalog, w.identified, EngagedAt(sys), fault).storage,
         history := sys.history + Landed(sys.storage, Planning(sys.storage)
                                                      && Materialize(h, sys.storage, w.identified,
                                                                     sys.build.Some?).result.Ok?))
  }

  lemma PhaseIs(h: Hash, w: World, sys: System, fault: Option<Fault>)
    ensures var st, after := sys.storage, AfterPhase(h, w, sys, fault);
            match st.intent
            case None => after == sys
            case Some(Intent(Planned, _)) => after == MaterializeStep(h, w, sys)
            case Some(Intent(Applied, final)) =>
              after == sys.(storage := PublishCheckpoint(h, st, sys.catalog, final, fault).storage)
            case Some(Intent(Checkpointed, _)) =>
              after == sys.(storage := AdvanceFloor(h, st, sys.catalog, EngagedAt(sys).GetOr(Sequence(st)),
                                                    fault).storage)
  {
    Nothing(sys.history);
  }

  lemma PhaseOk(h: Hash, w: World, sys: System, fault: Option<Fault>)
    requires SystemOk(h, w, sys) && PhaseClear(h, sys.storage, sys.catalog, EngagedAt(sys))
    ensures SystemOk(h, w, AfterPhase(h, w, sys, fault))
  {
    PhaseIs(h, w, sys, fault);
    match sys.storage.intent {
      case None =>
      case Some(Intent(Planned, _)) => MaterializeOk(h, w, sys);
      case Some(Intent(Applied, final)) => PublishOk(h, w, sys, final, fault);
      case Some(Intent(Checkpointed, _)) => FloorOk(h, w, sys, EngagedAt(sys).GetOr(Sequence(sys.storage)), fault);
    }
  }

  /** Resuming a system is one phase, then resuming what it left. */
  lemma ResumeByPhase(h: Hash, w: World, sys: System, fault: Option<Fault>)
    ensures var p, after :=
            RunPhase(h, sys.storage, sys.catalog, w.identified, EngagedAt(sys), fault), AfterPhase(h, w, sys, fault);
            ResumeStep(h, w, sys, fault) == if p.more == Ok(true) then ResumeStep(h, w, after, p.fault)
                else after
  {
    var after := AfterPhase(h, w, sys, fault);
    PhaseDescends(h, sys.storage, sys.catalog, w.identified, EngagedAt(sys), fault);
    Nothing(after.history);
  }

  lemma {:induction false} ResumeOk(h: Hash, w: World, sys: System, fault: Option<Fault>)
    requires SystemOk(h, w, sys) && ResumeClear(h, sys.storage, sys.catalog, w.identified, EngagedAt(sys), fault)
    ensures SystemOk(h, w, ResumeStep(h, w, sys, fault))
    decreases Rank(sys.storage.intent)
  {
    var p := RunPhase(h, sys.storage, sys.catalog, w.identified, EngagedAt(sys), fault);
    PhaseOk(h, w, sys, fault);
    ResumeByPhase(h, w, sys, fault);
    if p.more == Ok(true) {
      PhaseDescends(h, sys.storage, sys.catalog, w.identified, EngagedAt(sys), fault);
      ResumeOk(h, w, AfterPhase(h, w, sys, fault), p.fault);
    }
  }

  // ---- Whole runs ----

  /** Every legal step keeps the invariant. */
  lemma StepOk(h: Hash, w: World, sys: System, step: Step)
    requires SystemOk(h, w, sys) && Legal(h, w, sys, step)
    ensures SystemOk(h, w, Next(h, w, sys, step))
  {
    match step {
      case Issue(call) => IssueOk(h, w, sys, call);
      case IssueAtomic(writes) => IssueGroupOk(h, w, sys, writes);
      case Register(d) => RegisterOk(h, w, sys, d);
      case RegisterAndReopen(d) => RegisterAndReopenOk(h, w, sys, d);
      case RegisterIdentifiedTable(id) => RegisterIdentifiedOk(h, w, sys, id);
      case CommitOnly(c) => CommitOnlyOk(h, w, sys, c);
      case CutCheckpointNow => CutOk(h, w, sys);
      case CompactNow(maximum, ack) => CompactOk(h, w, sys, maximum, ack);
      case RebuildTables => RebuildOk(h, w, sys);
      case AcknowledgeMirror(head) => AcknowledgeOk(h, w, sys, head);
      case BeginStaged => BeganOk(h, w, sys);
      case ParkStaged => ParkOk(h, w, sys);
      case AbandonStaged => EndBuildOk(h, w, sys);
      case DiscardStaged => DiscardOk(h, w, sys);
      case MaterializeStaged => MaterializeOk(h, w, sys);
      case BeginPlan => BeginPlanOk(h, w, sys);
      case ParkPlan(fault) => ParkPlanOk(h, w, sys, fault);
      case ResumePlan(fault) => ResumeOk(h, w, sys, fault);
      case Reopen => ReopenOk(h, w, sys);
    }
  }

  lemma CutOk(h: Hash, w: World, sys: System)
    requires SystemOk(h, w, sys) && Legal(h, w, sys, CutCheckpointNow)
    ensures SystemOk(h, w, CutStep(h, sys))
  {
    if WriteCheckpoint(h, sys.storage, sys.catalog).Ok? {
      WriteOk(h, w, sys);
    } else {
      assert CutStep(h, sys) == sys;
    }
  }

  lemma BeginPlanOk(h: Hash, w: World, sys: System)
    requires SystemOk(h, w, sys)
    ensures SystemOk(h, w, BeginPlanStep(h, sys))
  {
    PlanBegins(h, w, sys);
    if sys.storage.intent.None? { BeganOk(h, w, sys); }
  }

  lemma PlanBegins(h: Hash, w: World, sys: System)
    ensures BeginPlanStep(h, sys) ==
            if sys.storage.intent.Some? then sys else Began(sys, Begin(h, sys.storage, sys.catalog, SessionOf(sys)))
  {
  }

  /** The system after a run of steps. */
  function After(h: Hash, w: World, sys: System, steps: seq<Step>): System {
    if steps == [] then sys else Next(h, w, After(h, w, sys, steps[..|steps| - 1]), steps[|steps| - 1])
  }

  ghost predicate AllLegal(h: Hash, w: World, sys: System, steps: seq<Step>) {
    steps == [] ||
    (AllLegal(h, w, sys, steps[..|steps| - 1])
     && Legal(h, w, After(h, w, sys, steps[..|steps| - 1]), steps[|steps| - 1]))
  }

  /** Every legal run keeps the invariant, whatever steps it takes, in whatever
      order, and wherever it crashes. */
  lemma {:induction false} RunOk(h: Hash, w: World, sys: System, steps: seq<Step>)
    requires SystemOk(h, w, sys) && AllLegal(h, w, sys, steps)
    ensures SystemOk(h, w, After(h, w, sys, steps))
    decreases |steps|
  {
    if steps != [] {
      var init := steps[..|steps| - 1];
      RunOk(h, w, sys, init);
      StepOk(h, w, After(h, w, sys, init), steps[|steps| - 1]);
    }
  }

  // ---- Crashes inside a write ----

  /** The durable states between a write's commit and the end of its maintenance:
      the commit, and the covering checkpoint if maintenance publishes one. */
  ghost predicate WriteLeaves(h: Hash, committed: System, current: nat, x: Storage) {
    || x == committed.storage
    || (Compacts(committed.storage, current)
        && x == EnsureCovering(h, committed.storage, committed.catalog, current).storage)
  }

  lemma RunOne(h: Hash, w: World, sys: System, step: Step)
    requires Legal(h, w, sys, step)
    ensures AllLegal(h, w, sys, [step]) && After(h, w, sys, [step]) == Next(h, w, sys, step)
  {
    assert [step][..0] == [] && After(h, w, sys, []) == sys && AllLegal(h, w, sys, []);
  }

  lemma RunTwo(h: Hash, w: World, sys: System, first: Step, second: Step)
    requires Legal(h, w, sys, first) && Legal(h, w, Next(h, w, sys, first), second)
    ensures AllLegal(h, w, sys, [first, second])
    ensures After(h, w, sys, [first, second]) == Next(h, w, Next(h, w, sys, first), second)
  {
    RunOne(h, w, sys, first);
    assert [first, second][..1] == [first];
  }

  lemma CoveringCuts(h: Hash, st: Storage, catalog: seq<FamilyIdentity>, current: nat)
    ensures var x := EnsureCovering(h, st, catalog, current).storage;
            x == st || (!CoveredAt(h, st, current) && WriteCheckpoint(h, st, catalog) == Ok(x))
  {
  }

  /** Every durable state a crash inside a write can find is a state of a legal run:
      the commit alone, or the commit and then the checkpoint its maintenance cuts. */
  lemma WriteCrashIsReached(h: Hash, w: World, sys: System, c: Commitment, current: nat, x: Storage)
    requires Legal(h, w, sys, CommitOnly(c))
    requires var committed := Committed(h, sys, c);
             MaintainClear(h, committed.storage, committed.catalog, current) && WriteLeaves(h, committed, current, x)
    ensures exists steps :: AllLegal(h, w, sys, steps) && After(h, w, sys, steps).storage == x
  {
    var committed := Committed(h, sys, c);
    RunOne(h, w, sys, CommitOnly(c));
    if x == committed.storage {
      assert After(h, w, sys, [CommitOnly(c)]).storage == x;
    } else {
      CoveringCuts(h, committed.storage, committed.catalog, current);
      assert CutStep(h, committed).storage == x;
      RunTwo(h, w, sys, CommitOnly(c), CutCheckpointNow);
      assert After(h, w, sys, [CommitOnly(c), CutCheckpointNow]).storage == x;
    }
  }

  // ---- What no step moves ----

  /** The policy never changes, and only an acknowledgement moves the cursor. */
  ghost predicate Steady(a: Storage, b: Storage) { a.policy == b.policy && a.cursor == b.cursor }

  lemma MaintainedSteady(h: Hash, st: Storage, done: Done, catalog: seq<FamilyIdentity>, current: nat)
    requires Steady(st, done.storage)
    ensures Steady(st, Maintained(h, done, catalog, current).storage)
  {
    MaintainedIs(h, done, catalog, current);
    MaintainMovesHistory(h, done.storage, catalog, current);
  }

  lemma DirectSteady(h: Hash, st: Storage, catalog: seq<FamilyIdentity>, call: Call)
    ensures Steady(st, Direct(h, st, catalog, call).storage)
  {
    DirectIs(h, st, catalog, call);
  }

  lemma PerformSteady(h: Hash, st: Storage, catalog: seq<FamilyIdentity>, call: Call)
    ensures Steady(st, Perform(h, st, catalog, call).storage)
  {
    var done := Direct(h, st, catalog, call);
    DirectSteady(h, st, catalog, call);
    PerformIs(h, st, catalog, call);
    MaintainedSteady(h, st, done, catalog, Sequence(done.storage));
  }

  lemma AtomicSteady(h: Hash, st: Storage, catalog: seq<FamilyIdentity>, engaged: Option<nat>, writes: seq<Write>)
    ensures Steady(st, PerformAtomic(h, st, catalog, engaged, writes).storage)
  {
    var done := CommitAtomic(h, st, catalog, writes);
    MaintainedSteady(h, st, done, catalog, engaged.GetOr(Sequence(done.storage)));
  }

  lemma PersistSteady(h: Hash, st: Storage, moved: seq<FamilyIdentity>, stored: FamilyIdentity,
                      evolved: FamilyIdentity, rows: seq<Row>)
    ensures Steady(st, PersistEvolution(h, st, moved, stored, evolved, rows))
  {
  }

  lemma LandSteady(h: Hash, st: Storage, engaged: Option<nat>, stored: FamilyIdentity, evolved: FamilyIdentity,
                   rows: seq<Row>, moved: seq<FamilyIdentity>)
    ensures Steady(st, LandEvolution(h, st, engaged, stored, evolved, rows, moved).storage)
  {
    var persisted := PersistEvolution(h, st, moved, stored, evolved, rows);
    PersistSteady(h, st, moved, stored, evolved, rows);
    MaintainMovesHistory(h, persisted, moved, CurrentSequence(persisted, engaged));
  }

  lemma EvolveSteady(h: Hash, st: Storage, catalog: seq<FamilyIdentity>, engaged: Option<nat>, stored: FamilyIdentity,
                     d: Descriptor, prior: Prior)
    ensures Steady(st, EvolveFamily(h, st, catalog, engaged, stored, d, prior).storage)
  {
    var rows := CarryRows(st.tables, d.family.table, prior, TextKeys(st.tables, d.family.table));
    var moved := Evolved(catalog, d.family.table, d.family);
    if rows.Ok? && moved.Ok? { LandSteady(h, st, engaged, stored, d.family, rows.value, moved.value); }
  }

  lemma RegisterSteady(h: Hash, st: Storage, catalog: seq<FamilyIdentity>, engaged: Option<nat>, d: Descriptor)
    ensures Steady(st, RegisterTable(h, st, catalog, engaged, d).storage)
  {
    var out, state := RegisterTable(h, st, catalog, engaged, d).storage, FamilyRegistrationState(catalog, d.family);
    if state.Err? && state.error.FamilyIdentityMismatch? {
      var stored := RegisteredFamily(catalog, d.family.table);
      if stored.Ok? && StepFor(d, stored.value).Some? {
        EvolveSteady(h, st, catalog, engaged, stored.value, d, StepFor(d, stored.value).value);
        assert out == EvolveFamily(h, st, catalog, engaged, stored.value, d, StepFor(d, stored.value).value).storage;
      } else {
        assert out == st;
      }
    } else {
      assert out == st.(registrations := out.registrations);
    }
  }

  lemma MaterializeSteady(h: Hash, st: Storage, directory: Directory, engaged: bool)
    ensures Steady(st, Materialize(h, st, directory, engaged).storage)
  {
    if st.slot.Some? { AppendMeaning(st, st.slot.value.entries); }
  }

  lemma PhaseSteady(h: Hash, w: World, sys: System, fault: Option<Fault>)
    ensures Steady(sys.storage, AfterPhase(h, w, sys, fault).storage)
  {
    PhaseIs(h, w, sys, fault);
    match sys.storage.intent {
      case None =>
      case Some(Intent(Planned, _)) => MaterializeSteady(h, sys.storage, w.identified, sys.build.Some?);
      case Some(Intent(Applied, final)) => PublishSteady(h, sys.storage, sys.catalog, final, fault);
      case Some(Intent(Checkpointed, _)) =>
        FloorSteady(h, sys.storage, sys.catalog, EngagedAt(sys).GetOr(Sequence(sys.storage)), fault);
    }
  }

  lemma PublishSteady(h: Hash, st: Storage, catalog: seq<FamilyIdentity>, final: Option<nat>, fault: Option<Fault>)
    ensures Steady(st, PublishCheckpoint(h, st, catalog, final, fault).storage)
  {
    PublishIs(h, st, catalog, final, fault);
    if final.Some? { CoverIs(h, st, catalog, final.value); }
    WriteMovesCheckpoints(h, st, catalog);
  }

  lemma FloorSteady(h: Hash, st: Storage, catalog: seq<FamilyIdentity>, current: nat, fault: Option<Fault>)
    ensures Steady(st, AdvanceFloor(h, st, catalog, current, fault).storage)
  {
    if st.policy.Some? {
      FloorIs(h, st, catalog, current, fault);
      MaintainMovesHistory(h, st, catalog, current);
    }
  }

  lemma {:induction false} ResumeSteady(h: Hash, w: World, sys: System, fault: Option<Fault>)
    ensures Steady(sys.storage, ResumeStep(h, w, sys, fault).storage)
    decreases Rank(sys.storage.intent)
  {
    var p := RunPhase(h, sys.storage, sys.catalog, w.identified, EngagedAt(sys), fault);
    PhaseSteady(h, w, sys, fault);
    ResumeByPhase(h, w, sys, fault);
    if p.more == Ok(true) {
      PhaseDescends(h, sys.storage, sys.catalog, w.identified, EngagedAt(sys), fault);
      ResumeSteady(h, w, AfterPhase(h, w, sys, fault), p.fault);
    }
  }

  /** Only the slot or the intent moved. */
  ghost predicate Aside(a: Storage, b: Storage) { b == a.(slot := b.slot, intent := b.intent) }

  lemma SessionStepsAside(h: Hash, sys: System)
    ensures BeginStep(h, sys).storage == sys.storage && BeginPlanStep(h, sys).storage == sys.storage
  {
  }

  lemma SlotStepsAside(sys: System, fault: Option<Fault>)
    ensures Aside(sys.storage, ParkStep(sys).storage) && Aside(sys.storage, ParkPlanStep(sys, fault).storage)
    ensures Aside(sys.storage, DiscardStep(sys).storage)
  {
    ParkIs(sys.storage, sys.build);
    ParkPlanIs(sys.storage, sys.build, fault);
  }

  lemma RegisterIdentifiedSteady(sys: System, id: FamilyIdentity)
    ensures Steady(sys.storage, RegisterIdentifiedStep(sys, id).storage)
  {
  }

  lemma RebuildSteady(h: Hash, w: World, sys: System)
    ensures Steady(sys.storage, RebuildStep(h, w, sys).storage)
  {
  }

  lemma CommitAtomicSteady(h: Hash, st: Storage, catalog: seq<FamilyIdentity>, writes: seq<Write>)
    ensures Steady(st, CommitAtomic(h, st, catalog, writes).storage)
  {
  }

  lemma CommitDeclarationSteady(h: Hash, sys: System, d: Descriptor)
    ensures Steady(sys.storage, Committed(h, sys, OfDeclaration(d)).storage)
  {
    if Evolving(sys, d) && Carries(sys, d) {
      PersistSteady(h, sys.storage, Evolved(sys.catalog, d.family.table, d.family).value,
                    FindTable(sys.catalog, d.family.table).value, d.family, CarriedRows(sys, d));
    } else {
      RegisterSteady(h, sys.storage, sys.catalog, EngagedAt(sys), d);
    }
  }

  lemma CommitSteady(h: Hash, sys: System, c: Commitment)
    ensures Steady(sys.storage, Committed(h, sys, c).storage)
  {
    match c {
      case OfCall(call) => DirectSteady(h, sys.storage, sys.catalog, call);
      case OfGroup(writes) => CommitAtomicSteady(h, sys.storage, sys.catalog, writes);
      case OfDeclaration(d) => CommitDeclarationSteady(h, sys, d);
    }
  }

  lemma CutSteady(h: Hash, sys: System)
    ensures Steady(sys.storage, CutStep(h, sys).storage)
  {
    WriteMovesCheckpoints(h, sys.storage, sys.catalog);
  }

  lemma CompactSteady(h: Hash, sys: System, maximum: nat, ack: Acknowledgement)
    ensures Steady(sys.storage, CompactStep(h, sys, maximum, ack).storage)
  {
    CompactMovesHistory(h, sys.storage, sys.catalog, Current(sys), maximum, ack);
  }

  lemma IssueSteady(h: Hash, sys: System, call: Call)
    ensures Steady(sys.storage, IssueCall(h, sys, call).storage)
  {
    PerformSteady(h, sys.storage, sys.catalog, call);
  }

  lemma IssueGroupSteady(h: Hash, sys: System, writes: seq<Write>)
    ensures Steady(sys.storage, IssueGroup(h, sys, writes).storage)
  {
    AtomicSteady(h, sys.storage, sys.catalog, EngagedAt(sys), writes);
  }

  lemma RegisterFamilySteady(h: Hash, sys: System, d: Descriptor)
    ensures Steady(sys.storage, RegisterFamily(h, sys, d).storage)
    ensures Steady(sys.storage, Reopened(RegisterFamily(h, sys, d)).storage)
  {
    RegisterSteady(h, sys.storage, sys.catalog, EngagedAt(sys), d);
  }

  lemma MaterializeStepSteady(h: Hash, w: World, sys: System)
    ensures Steady(sys.storage, MaterializeStep(h, w, sys).storage)
  {
    MaterializeSteady(h, sys.storage, w.identified, sys.build.Some?);
  }

  lemma ParkSteady(sys: System)
    ensures Steady(sys.storage, ParkStep(sys).storage)
  {
    SlotStepsAside(sys, None);
  }

  lemma ParkPlanSteady(sys: System, fault: Option<Fault>)
    ensures Steady(sys.storage, ParkPlanStep(sys, fault).storage)
  {
    SlotStepsAside(sys, fault);
  }

  lemma DiscardSteady(sys: System)
    ensures Steady(sys.storage, DiscardStep(sys).storage)
  {
    SlotStepsAside(sys, None);
  }

  lemma WritingSteady(h: Hash, w: World, sys: System, step: Step)
    requires step.Issue? || step.IssueAtomic? || step.Register? || step.RegisterAndReopen? || step.CommitOnly?
    ensures Steady(sys.storage, Next(h, w, sys, step).storage)
  {
    match step {
      case Issue(call) => IssueSteady(h, sys, call);
      case IssueAtomic(writes) => IssueGroupSteady(h, sys, writes);
      case Register(d) => RegisterFamilySteady(h, sys, d);
      case RegisterAndReopen(d) => RegisterFamilySteady(h, sys, d);
      case CommitOnly(c) => CommitSteady(h, sys, c);
    }
  }

  lemma KeepingSteady(h: Hash, w: World, sys: System, step: Step)
    requires step.RegisterIdentifiedTable? || step.CutCheckpointNow? || step.CompactNow? || step.RebuildTables?
             || step.MaterializeStaged? || step.ResumePlan?
    ensures Steady(sys.storage, Next(h, w, sys, step).storage)
  {
    match step {
      case RegisterIdentifiedTable(id) => RegisterIdentifiedSteady(sys, id);
      case CutCheckpointNow => CutSteady(h, sys);
      case CompactNow(maximum, ack) => CompactSteady(h, sys, maximum, ack);
      case RebuildTables => RebuildSteady(h, w, sys);
      case MaterializeStaged => MaterializeStepSteady(h, w, sys);
      case ResumePlan(fault) => ResumeSteady(h, w, sys, fault);
    }
  }

  lemma SlotSteady(h: Hash, w: World, sys: System, step: Step)
    requires step.ParkStaged? || step.DiscardStaged? || step.ParkPlan?
    ensures Steady(sys.storage, Next(h, w, sys, step).storage)
  {
    match step {
      case ParkStaged => ParkSteady(sys);
      case DiscardStaged => DiscardSteady(sys);
      case ParkPlan(fault) => ParkPlanSteady(sys, fault);
    }
  }

  lemma SessionSteady(h: Hash, w: World, sys: System, step: Step)
    requires step.BeginStaged? || step.AbandonStaged? || step.BeginPlan? || step.Reopen?
    ensures Steady(sys.storage, Next(h, w, sys, step).storage)
  {
    SessionStepsAside(h, sys);
  }

  /** Only an acknowledgement moves the cursor, and nothing moves the policy. */
  lemma StepSteady(h: Hash, w: World, sys: System, step: Step)
    requires !step.AcknowledgeMirror?
    ensures Steady(sys.storage, Next(h, w, sys, step).storage)
  {
    match step {
      case Issue(_) | IssueAtomic(_) | Register(_) | RegisterAndReopen(_) | CommitOnly(_) =>
        WritingSteady(h, w, sys, step);
      case ParkStaged | DiscardStaged | ParkPlan(_) => SlotSteady(h, w, sys, step);
      case BeginStaged | AbandonStaged | BeginPlan | Reopen => SessionSteady(h, w, sys, step);
      case _ => KeepingSteady(h, w, sys, step);
    }
  }

  lemma HistoryGrows(h: Hash, w: World, sys: System, step: Step)
    ensures sys.history <= Next(h, w, sys, step).history
  {
  }

  lemma SystemCursor(h: Hash, w: World, sys: System)
    requires SystemOk(h, w, sys)
    ensures |sys.history| == Sequence(sys.storage) && MirrorOk(sys.storage) && Sequenced(sys.storage)
  {
  }

  /** A step only ever extends the history, keeps the policy, and never moves the
      shipped cursor back. */
  lemma StepAdvances(h: Hash, w: World, sys: System, step: Step)
    requires SystemOk(h, w, sys) && Legal(h, w, sys, step)
    ensures SystemOk(h, w, Next(h, w, sys, step))
    ensures var next := Next(h, w, sys, step);
            && sys.history <= next.history && Sequence(sys.storage) <= Sequence(next.storage)
            && next.storage.policy == sys.storage.policy && CursorSequence(sys.storage) <= CursorSequence(next.storage)
  {
    StepOk(h, w, sys, step);
    HistoryGrows(h, w, sys, step);
    SystemCursor(h, w, sys);
    SystemCursor(h, w, Next(h, w, sys, step));
    CursorAdvances(h, w, sys, step);
  }

  lemma CursorAdvances(h: Hash, w: World, sys: System, step: Step)
    requires MirrorOk(sys.storage) && Sequenced(sys.storage)
    ensures var next := Next(h, w, sys, step).storage;
            next.policy == sys.storage.policy && CursorSequence(sys.storage) <= CursorSequence(next)
  {
    if step.AcknowledgeMirror? {
      AcknowledgeMoves(sys.storage, step.head);
    } else {
      StepSteady(h, w, sys, step);
    }
  }

  lemma {:induction false} RunAdvances(h: Hash, w: World, sys: System, steps: seq<Step>)
    requires SystemOk(h, w, sys) && AllLegal(h, w, sys, steps)
    ensures var end := After(h, w, sys, steps);
            && SystemOk(h, w, end) && sys.history <= end.history && Sequence(sys.storage) <= Sequence(end.storage)
            && end.storage.policy == sys.storage.policy && CursorSequence(sys.storage) <= CursorSequence(end.storage)
    decreases |steps|
  {
    if steps != [] {
      var init := steps[..|steps| - 1];
      RunAdvances(h, w, sys, init);
      StepAdvances(h, w, After(h, w, sys, init), steps[|steps| - 1]);
    }
  }

  // ---- What every reachable store satisfies ----

  /** The log is the store: in every state a legal run from a new store reaches,
      folding the whole history from nothing, folding the latest checkpoint's rows
      and the retained suffix, and reading the tables give the same rows. */
  lemma LogIsTheStore(h: Hash, w: World, policy: Policy, steps: seq<Step>)
    requires AllLegal(h, w, Created(policy), steps)
    ensures var sys := After(h, w, Created(policy), steps);
            var whole, view := Fold(h, [], sys.history, None), CurrentView(h, sys.storage);
            && whole.Ok? && view.Ok? && whole.value.rows == view.value.rows
            && ViewDigest(h, whole.value) == ViewDigest(h, view.value)
            && Agrees(w, sys.storage.tables, whole.value.rows, sys.storage.registrations)
  {
    CreatedOk(h, w, policy);
    RunOk(h, w, Created(policy), steps);
    var sys := After(h, w, Created(policy), steps);
    WholeHistoryIsTheView(h, w, sys.storage, sys.catalog, sys.history);
  }

  /** The cached slots always equal their recomputation: the counts are the log
      lengths, every retained commit has its versioned entry, and the head slot is
      the digest of the last entry ever appended, also when the whole log is gone. */
  lemma SlotsEqualRecomputation(h: Hash, w: World, policy: Policy, steps: seq<Step>)
    requires AllLegal(h, w, Created(policy), steps)
    ensures var sys := After(h, w, Created(policy), steps);
            var st := sys.storage;
            && st.commitCount == |st.commits| && st.versionedCount == |st.versioned|
            && st.commits == Projections(st.versioned)
            && st.head == HeadAfter(sys.history, None) && Sequence(st) == |sys.history|
  {
    CreatedOk(h, w, policy);
    RunOk(h, w, Created(policy), steps);
  }

  /** The latest checkpoint always loads and verifies, and covers a prefix of the
      history that ends within the log. */
  lemma CheckpointAlwaysLoads(h: Hash, w: World, policy: Policy, steps: seq<Step>)
    requires AllLegal(h, w, Created(policy), steps)
    ensures var st := After(h, w, Created(policy), steps).storage;
            var latest := LatestCheckpoint(h, st);
            && latest.Ok? && (latest.value.Some? <==> st.latestCheckpoint.Some?)
            && (latest.value.Some? ==>
                  Verify(h, latest.value.value) == Ok(()) && latest.value.value.metadata.last <= Sequence(st)
                  && Sequence(st) <= latest.value.value.metadata.last + |st.versioned|)
  {
    CreatedOk(h, w, policy);
    RunOk(h, w, Created(policy), steps);
    var sys := After(h, w, Created(policy), steps);
    LatestSound(h, w, sys.storage, sys.catalog);
  }

  lemma LatestSound(h: Hash, w: World, st: Storage, catalog: seq<FamilyIdentity>)
    requires Inv(h, w, st, catalog)
    ensures var latest := LatestCheckpoint(h, st);
            && latest.Ok? && (latest.value.Some? <==> st.latestCheckpoint.Some?)
            && (latest.value.Some? ==>
                  Verify(h, latest.value.value) == Ok(()) && latest.value.value.metadata.last <= Sequence(st)
                  && Sequence(st) <= latest.value.value.metadata.last + |st.versioned|)
  {
  }

  /** The entry a checkpoint covers last. */
  lemma CoveredDigestIs(h: Hash, w: World, st: Storage, catalog: seq<FamilyIdentity>, history: seq<Entry>,
                        k: Checkpoint)
    requires Inv(h, w, st, catalog) && Chronicle(h, w, st, history) && Retains(st, history)
    requires LatestCheckpoint(h, st) == Ok(Some(k)) && 1 <= k.metadata.last
    ensures k.metadata.last <= |history| && k.metadata.coveredDigest == history[k.metadata.last - 1].digest
  {
    var last, suffix := k.metadata.last, EntriesFrom(st.versioned, k.metadata.last + 1);
    SuffixFollows(h, w, st, k);
    FirstOfSuffix(st, history, last);
    if suffix != [] { LogSlots.ChainedLink(h, history, None, last); }
  }

  lemma SuffixFollows(h: Hash, w: World, st: Storage, k: Checkpoint)
    requires FoldOk(h, w, st, Some(k))
    ensures var suffix := EntriesFrom(st.versioned, k.metadata.last + 1);
            if suffix == [] then st.head == Some(k.metadata.coveredDigest)
            else suffix[0].previous == Some(k.metadata.coveredDigest)
  {
    var b, suffix := BaseOf(Some(k)), EntriesFrom(st.versioned, k.metadata.last + 1);
    FoldMeaning(h, ApplyCheckpointRows(EMPTY_VIEW, b.rows).value, suffix, b.head);
    if suffix != [] { ChainedStarts(h, suffix, b.head); }
  }

  lemma FirstOfSuffix(st: Storage, history: seq<Entry>, last: nat)
    requires Sequenced(st) && Tail(st.versioned, history) && |history| == Sequence(st)
    requires Sequence(st) - |st.versioned| <= last <= Sequence(st)
    ensures var suffix := EntriesFrom(st.versioned, last + 1);
            if last == |history| then suffix == [] else suffix != [] && suffix[0] == history[last]
  {
    FromConsecutive(st.versioned, EntryRowSequence, last + 1, Sequence(st));
  }

  /** In every reachable state the stored checkpoints are numbered and name one
      another, and the latest covers the history from its first entry through its
      last, and carries that entry's snapshot and digest, the store's name and the
      hash of the inventory it records. */
  lemma CheckpointCoversHistory(h: Hash, w: World, policy: Policy, steps: seq<Step>, k: Checkpoint)
    requires AllLegal(h, w, Created(policy), steps)
    requires LatestCheckpoint(h, After(h, w, Created(policy), steps).storage) == Ok(Some(k))
    ensures var sys, m := After(h, w, Created(policy), steps), k.metadata;
            && m.first == 1 <= m.last <= |sys.history|
            && m.coveredSnapshot == sys.history[m.last - 1].snapshot
            && m.coveredDigest == sys.history[m.last - 1].digest
            && m.storeName == policy.storeName && m.schemaHash == StoreSchemaHash(h, m.inventory.families)
            && Numbered(sys.storage.checkpoints, sys.storage.latestCheckpoint)
  {
    var sys := After(h, w, Created(policy), steps);
    CreatedOk(h, w, policy);
    RunAdvances(h, w, Created(policy), steps);
    LatestRow(h, sys.storage, Some(k));
    CoveredDigestIs(h, w, sys.storage, sys.catalog, sys.history, k);
  }

  /** No identifier is ever committed twice in a table, by whatever path, and every
      durable counter stands above all of them. */
  lemma NoIdentifierTwice(h: Hash, w: World, policy: Policy, steps: seq<Step>, table: Name)
    requires AllLegal(h, w, Created(policy), steps)
    ensures var sys := After(h, w, Created(policy), steps);
            var ops := AllOps(sys.history);
            && (forall i, id: nat :: 0 <= i < |ops| && MintsAt(ops[i], table, id) ==>
                id < NextIdentifier(sys.storage.identified, table))
            && (forall i, j, x: nat, y: nat ::
                  0 <= i < j < |ops| && MintsAt(ops[i], table, x) && MintsAt(ops[j], table, y) ==> x < y)
  {
    CreatedOk(h, w, policy);
    RunOk(h, w, Created(policy), steps);
    var sys := After(h, w, Created(policy), steps);
    IdentifiersNeverRepeat(h, w, sys.storage, sys.history, table);
  }

  /** In a mirrored store the outbox is the retained log, row for row, and the
      unshipped suffix is exactly the history past the cursor. */
  lemma MirrorNeverLoses(h: Hash, w: World, policy: Policy, steps: seq<Step>)
    requires AllLegal(h, w, Created(policy), steps) && policy.topology.Mirror?
    ensures var sys := After(h, w, Created(policy), steps);
            var st := sys.storage;
            && st.outbox == OutboxOf(st.versioned) && CursorSequence(st) <= |sys.history|
            && Unshipped(st) == OutboxOf(sys.history[CursorSequence(st)..])
  {
    CreatedOk(h, w, policy);
    RunAdvances(h, w, Created(policy), steps);
    var sys := After(h, w, Created(policy), steps);
    UnshippedIsHistoryPastCursor(h, w, sys.storage, sys.history);
  }

  // ---- Failing closed, over whole runs ----

  lemma InPlaceMaterializes(h: Hash, w: World, sys: System, g: StagedGroup)
    requires SystemOk(h, w, sys) && sys.storage.slot == Some(g) && g.entries[0].sequence == Sequence(sys.storage) + 1
    ensures Materialize(h, sys.storage, w.identified, false).result.Ok?
  {
    MaterializeIsAppend(h, w, sys.storage, g);
  }

  /** A parked group that is still in the slot later in the run is accepted if and
      only if nothing at all was committed since it was parked; otherwise it is
      refused and nothing changes. Sequence numbers alone decide. */
  lemma ParkedGroupFailsClosed(h: Hash, w: World, sys: System, steps: seq<Step>, g: StagedGroup)
    requires SystemOk(h, w, sys) && AllLegal(h, w, sys, steps)
    requires sys.storage.slot == Some(g) && g.entries[0].sequence == Sequence(sys.storage) + 1
    requires After(h, w, sys, steps).storage.slot == Some(g)
    ensures var end := After(h, w, sys, steps);
            var m := Materialize(h, end.storage, w.identified, false);
            && (m.result.Ok? <==> end.history == sys.history)
            && (m.result.Err? ==> m == Materialized(Err(StagingBaseMoved(Sequence(end.storage))), end.storage, []))
  {
    var end := After(h, w, sys, steps);
    RunAdvances(h, w, sys, steps);
    SystemCursor(h, w, sys);
    SystemCursor(h, w, end);
    if end.history == sys.history {
      InPlaceMaterializes(h, w, end, g);
    } else {
      MovedStoreRefusesGroup(h, end.storage, w.identified, g);
    }
  }

  lemma CurrentBuildParks(h: Hash, w: World, sys: System)
    requires SystemOk(h, w, sys) && sys.build.Some? && sys.build.value.session.entries != []
    requires sys.build.value.session.base.sequence == Sequence(sys.storage)
    ensures Park(sys.storage, SessionOf(sys)).result.Ok?
  {
  }

  /** Likewise a session: it parks if and only if nothing was committed since it was
      engaged. */
  lemma EngagedSessionFailsClosed(h: Hash, w: World, sys: System, steps: seq<Step>)
    requires SystemOk(h, w, sys) && AllLegal(h, w, sys, steps)
    requires After(h, w, sys, steps).build.Some? && After(h, w, sys, steps).build.value.session.entries != []
    requires After(h, w, sys, steps).build.value.session.base.sequence == Sequence(sys.storage)
    ensures var end := After(h, w, sys, steps);
            var out := Park(end.storage, SessionOf(end));
            && (out.result.Ok? <==> end.history == sys.history)
            && (out.result.Err? ==> out == Outcome(Err(StagingBaseMoved(Sequence(end.storage))), end.storage))
  {
    var end := After(h, w, sys, steps);
    RunAdvances(h, w, sys, steps);
    SystemCursor(h, w, sys);
    SystemCursor(h, w, end);
    if end.history == sys.history {
      CurrentBuildParks(h, w, end);
    } else {
      MovedStoreRefusesPark(end.storage, end.build.value.session);
    }
  }

  // ---- A build that never lands ----

  function Issues(calls: seq<Call>): (r: seq<Step>)
    ensures |r| == |calls|
  {
    seq(|calls|, i requires 0 <= i < |calls| => Issue(calls[i]))
  }

  lemma IssueMovesBuild(h: Hash, sys: System, call: Call)
    requires sys.build.Some?
    ensures IssueCall(h, sys, call).build.Some?
            && IssueCall(h, sys, call) == sys.(build := IssueCall(h, sys, call).build)
  {
  }

  /** While a session is engaged the write surface moves the session and nothing else. */
  lemma {:induction false} IssuesMoveBuild(h: Hash, w: World, sys: System, calls: seq<Call>)
    requires sys.build.Some?
    ensures var end := After(h, w, sys, Issues(calls)); end.build.Some? && end == sys.(build := end.build)
    decreases |calls|
  {
    if calls != [] {
      var n := |calls| - 1;
      assert Issues(calls)[..n] == Issues(calls[..n]);
      IssuesMoveBuild(h, w, sys, calls[..n]);
      IssueMovesBuild(h, After(h, w, sys, Issues(calls[..n])), calls[n]);
    }
  }

  lemma EndsUnparked(h: Hash, w: World, sys: System)
    requires sys.build.Some? && sys.storage.slot.None?
    ensures DiscardStep(ParkStep(sys)) == sys.(build := None)
  {
    DiscardUndoesPark(sys.storage, sys.build.value.session);
  }

  /** A build that is abandoned, or parked and then discarded, leaves no trace:
      whatever was issued in between, accepted or refused, the whole system is as it
      was before the session was engaged. */
  lemma DiscardedBuildLeavesNoTrace(h: Hash, w: World, sys: System, calls: seq<Call>)
    requires sys.build.None? && sys.storage.policy.Some? && sys.storage.slot.None?
    ensures var built := After(h, w, BeginStep(h, sys), Issues(calls));
            && AbandonStep(built) == sys
            && DiscardStep(ParkStep(built)) == sys
  {
    var engaged := BeginStep(h, sys);
    assert engaged.build.Some? && engaged == sys.(build := engaged.build);
    IssuesMoveBuild(h, w, engaged, calls);
    EndsUnparked(h, w, After(h, w, engaged, Issues(calls)));
  }
}
