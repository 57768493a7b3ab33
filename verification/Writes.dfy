// The direct write paths: validation against the pre-state, then one commit.
module Writes {
  import opened ByteStrings
  import opened Errors
  import opened Versioning
  import opened CanonicalViews
  import opened Checkpoints
  import opened Catalogs
  import opened Stores
  import opened Invariants
  import opened Histories
  import opened Retention

  datatype WriteKind = Assertion | Mutation | Retraction

  function OperationOf(kind: WriteKind): SemaOperation {
    match kind
    case Assertion => Assert
    case Mutation => Mutate
    case Retraction => Retract
  }

  /** One write to a domain table. A retraction carries no record. */
  datatype Write = Write(kind: WriteKind, table: Name, key: RecordKey, record: Bytes)
  datatype BatchOperation = BatchOperation(kind: WriteKind, key: RecordKey, record: Bytes)

  datatype Call =
    | Keyed(write: Write)
    | Batch(batchTable: Name, operations: seq<BatchOperation>)
    | AssertIdentified(table: Name, record: Bytes)
    | MutateIdentified(table: Name, id: nat, record: Bytes)
    | RetractIdentified(table: Name, id: nat)

  function InTable(table: Name, ops: seq<BatchOperation>): (r: seq<Write>)
    ensures |r| == |ops|
  {
    seq(|ops|, i requires 0 <= i < |ops| => Write(ops[i].kind, table, ops[i].key, ops[i].record))
  }

  // ---- Validation ----

  /** A validated operation and the record its delta carries. */
  datatype Prepared = Prepared(op: LogOperation, record: Bytes)

  function OpsOf(ps: seq<Prepared>): (r: seq<LogOperation>)
    ensures |r| == |ps| && forall i :: 0 <= i < |ps| ==> r[i] == ps[i].op
  {
    seq(|ps|, i requires 0 <= i < |ps| => ps[i].op)
  }

  /** A domain table stores every key under its canonical text. */
  function TextSlot(table: Name, key: RecordKey): Coord { Coord(table, Domain(Text(key))) }

  function PayloadOf(w: Write): Payload { if w.kind.Retraction? then Tombstone else Record(w.record) }

  function PrepareOne(tables: Tables, catalog: seq<FamilyIdentity>, w: Write): Result<Prepared> {
    match FindTable(catalog, w.table)
    case None => Err(TableNotRegistered(w.table))
    case Some(family) =>
      var slot := TextSlot(w.table, w.key);
      if w.kind.Assertion? && slot in tables then Err(DuplicateAssertKey(w.table, Text(w.key)))
      else if !w.kind.Assertion? && slot !in tables then Err(RecordNotFound(w.table, Text(w.key)))
      else Ok(Prepared(LogOperation(OperationOf(w.kind), family, Some(w.key), PayloadOf(w)),
                       if w.kind.Retraction? then tables[slot] else w.record))
  }

  function Coordinates(ws: seq<Write>): set<(Name, RecordKey)> { set w | w in ws :: (w.table, w.key) }

  /** Every write is checked against the same pre-state, and no key twice. */
  function Prepare(tables: Tables, catalog: seq<FamilyIdentity>, ws: seq<Write>): Result<seq<Prepared>> {
    if ws == [] then Ok([])
    else
      var init, w := ws[..|ws| - 1], ws[|ws| - 1];
      var before := Prepare(tables, catalog, init);
      if before.Err? then before
      else if (w.table, w.key) in Coordinates(init) then Err(DuplicateWriteKey(w.table, Text(w.key)))
      else
        var p := PrepareOne(tables, catalog, w);
        if p.Err? then Err(p.error) else Ok(before.value + [p.value])
  }

  function PlanIdentified(tables: Tables, catalog: seq<FamilyIdentity>, kind: WriteKind, table: Name, id: nat,
                          record: Bytes)
    : Result<seq<Prepared>>
  {
    match FindTable(catalog, table)
    case None => Err(TableNotRegistered(table))
    case Some(family) =>
      var slot := Coord(table, Identifier(id));
      if !kind.Assertion? && slot !in tables then Err(RecordNotFound(table, Decimal(id)))
      else Ok([Prepared(LogOperation(OperationOf(kind), family, Some(Identifier(id)),
                                     if kind.Retraction? then Tombstone else Record(record)),
                        if kind.Retraction? then tables[slot] else record)])
  }

  /** Validate a call against a state of the tables and identifier counters. */
  function Plan(tables: Tables, identified: map<Name, nat>, catalog: seq<FamilyIdentity>,
                call: Call): Result<seq<Prepared>> {
    match call
    case Keyed(w) => Prepare(tables, catalog, [w])
    case Batch(table, ops) =>
      if FindTable(catalog, table).None? then Err(TableNotRegistered(table))
      else if ops == [] then Err(EmptyCommit(table))
      else Prepare(tables, catalog, InTable(table, ops))
    case AssertIdentified(table, record) =>
      PlanIdentified(tables, catalog, Assertion, table, NextIdentifier(identified, table), record)
    case MutateIdentified(table, id, record) => PlanIdentified(tables, catalog, Mutation, table, id, record)
    case RetractIdentified(table, id) => PlanIdentified(tables, catalog, Retraction, table, id, [])
  }

  // ---- Commit ----

  /** How a domain write lands: under the key's text, whatever the key's kind. */
  function TextOnTables(tables: Tables, op: LogOperation): Tables
    requires op.key.Some?
  {
    var slot := TextSlot(op.family.table, op.key.value);
    match op.payload
    case Record(bytes) => tables[slot := bytes]
    case Tombstone => tables - {slot}
  }

  function TextsOnTables(tables: Tables, ops: seq<LogOperation>): Tables
    requires forall op :: op in ops ==> op.key.Some?
  {
    if ops == [] then tables
    else
      assert ops[|ops| - 1] in ops;
      TextOnTables(TextsOnTables(tables, ops[..|ops| - 1]), ops[|ops| - 1])
  }

  /** The single commit step: data, both logs, counters and outbox in one write.
      Without a versioning policy only the metadata log is kept. */
  function Commit(h: Hash, st: Storage, catalog: seq<FamilyIdentity>, ops: seq<LogOperation>, tables: Tables,
                  identified: map<Name, nat>): Storage
  {
    var plain := st.(tables := tables,
                     commits := st.commits + [CommitEntry(Sequence(st) + 1, Snapshot(st) + 1, ProjectOperations(ops))],
                     commitCount := st.commitCount + 1,
                     sequence := Some(Sequence(st) + 1),
                     snapshot := Some(Snapshot(st) + 1),
                     identified := identified);
    if st.policy.None? then plain
    else
      var e := NextEntry(h, st, catalog, ops);
      plain.(versioned := st.versioned + [e],
             head := Some(e.digest),
             versionedCount := st.versionedCount + 1,
             outbox := st.outbox + if Mirrored(st) then [OutboxRow(e.sequence, e.digest)] else [])
  }

  datatype Receipt = Receipt(table: Name, key: Option<RecordKey>, sequence: nat, snapshot: nat, count: nat)

  function CallTable(call: Call): Name {
    match call
    case Keyed(w) => w.table
    case Batch(table, _) => table
    case _ => call.table
  }

  function ReceiptFor(call: Call, ops: seq<LogOperation>, sequence: nat, snapshot: nat): Receipt {
    Receipt(CallTable(call), if call.Batch? || ops == [] then None else ops[0].key, sequence, snapshot, |ops|)
  }

  /** One delta per operation of a domain write, in request order. */
  function DeltasOf(ps: seq<Prepared>, snapshot: nat): seq<Delta>
    requires forall i :: 0 <= i < |ps| ==> ps[i].op.key.Some?
  {
    seq(|ps|, i requires 0 <= i < |ps| =>
      Delta(ps[i].op.operation, ps[i].op.family.table, ps[i].op.key.value, snapshot, ps[i].record))
  }

  predicate IsDomainCall(call: Call) { call.Keyed? || call.Batch? }

  datatype Done = Done(result: Result<Receipt>, storage: Storage, deltas: seq<Delta>)

  lemma {:induction false} PrepareKeyed(tables: Tables, catalog: seq<FamilyIdentity>, ws: seq<Write>)
    requires Prepare(tables, catalog, ws).Ok?
    ensures var ps := Prepare(tables, catalog, ws).value;
            |ps| == |ws| && forall i :: 0 <= i < |ps| ==>
              PrepareOne(tables, catalog, ws[i]) == Ok(ps[i]) && ps[i].op.key == Some(ws[i].key)
                  && ps[i].op.family.table == ws[i].table
  {
    if ws != [] {
      var w := ws[|ws| - 1];
      PrepareKeyed(tables, catalog, ws[..|ws| - 1]);
      FindTableNamesIt(catalog, w.table);
    }
  }

  lemma PlanKeyed(tables: Tables, identified: map<Name, nat>, catalog: seq<FamilyIdentity>, call: Call)
    requires Plan(tables, identified, catalog, call).Ok?
    ensures var ps := Plan(tables, identified, catalog, call).value;
            ps != [] && forall i :: 0 <= i < |ps| ==> ps[i].op.key.Some?
  {
    if call.Keyed? { PrepareKeyed(tables, catalog, [call.write]); }
    if call.Batch? { PrepareKeyed(tables, catalog, InTable(call.batchTable, call.operations)); }
  }

  /** Where the rows of a validated call land. */
  function LandedTables(tables: Tables, call: Call, ops: seq<LogOperation>): Tables
    requires forall op :: op in ops ==> op.key.Some?
  {
    if IsDomainCall(call) then TextsOnTables(tables, ops) else OperationsOnTables(tables, ops)
  }

  function LandedCounters(identified: map<Name, nat>, call: Call): map<Name, nat> {
    if call.AssertIdentified? then identified[call.table := NextIdentifier(identified, call.table) + 1] else identified
  }

  /** One direct call up to and including its commit. */
  function Direct(h: Hash, st: Storage, catalog: seq<FamilyIdentity>, call: Call): Done {
    var plan := Plan(st.tables, st.identified, catalog, call);
    if plan.Err? then Done(Err(plan.error), st, [])
    else
      PlanKeyed(st.tables, st.identified, catalog, call);
      CommitPlan(h, st, catalog, call, plan.value)
  }

  function CommitPlan(h: Hash, st: Storage, catalog: seq<FamilyIdentity>, call: Call, ps: seq<Prepared>): Done
    requires forall i :: 0 <= i < |ps| ==> ps[i].op.key.Some?
  {
    var ops := OpsOf(ps);
    Done(Ok(ReceiptFor(call, ops, Sequence(st) + 1, Snapshot(st) + 1)),
         Commit(h, st, catalog, ops, LandedTables(st.tables, call, ops), LandedCounters(st.identified, call)),
         Delivered(call, ps, Snapshot(st) + 1))
  }

  /** What a direct call hands to subscribers. */
  function Delivered(call: Call, ps: seq<Prepared>, snapshot: nat): seq<Delta>
    requires forall i :: 0 <= i < |ps| ==> ps[i].op.key.Some?
  {
    if IsDomainCall(call) then DeltasOf(ps, snapshot) else []
  }

  lemma DirectIs(h: Hash, st: Storage, catalog: seq<FamilyIdentity>, call: Call)
    ensures var plan := Plan(st.tables, st.identified, catalog, call);
            && (plan.Err? ==> Direct(h, st, catalog, call) == Done(Err(plan.error), st, []))
            && (plan.Ok? ==> (forall i :: 0 <= i < |plan.value| ==> plan.value[i].op.key.Some?)
                             && Direct(h, st, catalog, call) == CommitPlan(h, st, catalog, call, plan.value))
  {
    if Plan(st.tables, st.identified, catalog, call).Ok? { PlanKeyed(st.tables, st.identified, catalog, call); }
  }

  /** What a versioned commit moves in the log. */
  lemma CommitPlanMints(h: Hash, st: Storage, catalog: seq<FamilyIdentity>, call: Call, ps: seq<Prepared>)
    requires st.policy.Some? && forall i :: 0 <= i < |ps| ==> ps[i].op.key.Some?
    ensures var e, st' := NextEntry(h, st, catalog, OpsOf(ps)), CommitPlan(h, st, catalog, call, ps).storage;
            && st'.versioned == st.versioned + [e] && st'.head == Some(e.digest)
            && st'.checkpoints == st.checkpoints && st'.segments == st.segments
               && st'.latestCheckpoint == st.latestCheckpoint
  {
  }

  /** A successful write then maintains its history, and reports a maintenance
      failure although its commit is durable. */
  function Maintained(h: Hash, done: Done, catalog: seq<FamilyIdentity>, current: nat): Done {
    if done.result.Err? then done
    else
      var maintained := Maintain(h, done.storage, catalog, current);
      if maintained.result.Err? then Done(Err(maintained.result.error), maintained.storage, done.deltas)
      else Done(done.result, maintained.storage, done.deltas)
  }

  /** A whole direct call. Identified calls run no maintenance. */
  function Perform(h: Hash, st: Storage, catalog: seq<FamilyIdentity>, call: Call): Done {
    var done := Direct(h, st, catalog, call);
    if IsDomainCall(call) then Maintained(h, done, catalog, Sequence(done.storage)) else done
  }

  /** A heterogeneous group: one commit over several domain tables. */
  function CommitAtomic(h: Hash, st: Storage, catalog: seq<FamilyIdentity>, ws: seq<Write>): Done {
    if ws == [] then Done(Err(EmptyAtomicCommit), st, [])
    else
      var plan := Prepare(st.tables, catalog, ws);
      if plan.Err? then Done(Err(plan.error), st, [])
      else
        PrepareKeyed(st.tables, catalog, ws);
        CommitPrepared(h, st, catalog, plan.value)
  }

  function CommitPrepared(h: Hash, st: Storage, catalog: seq<FamilyIdentity>, ps: seq<Prepared>): Done
    requires forall i :: 0 <= i < |ps| ==> ps[i].op.key.Some?
  {
    var ops := OpsOf(ps);
    Done(Ok(Receipt([], None, Sequence(st) + 1, Snapshot(st) + 1, |ops|)),
         Commit(h, st, catalog, ops, TextsOnTables(st.tables, ops), st.identified), DeltasOf(ps, Snapshot(st) + 1))
  }

  lemma AtomicIs(h: Hash, st: Storage, catalog: seq<FamilyIdentity>, ws: seq<Write>)
    ensures var plan, out := Prepare(st.tables, catalog, ws), CommitAtomic(h, st, catalog, ws);
            && (ws == [] ==> out == Done(Err(EmptyAtomicCommit), st, []))
            && (ws != [] && plan.Err? ==> out == Done(Err(plan.error), st, []))
            && (ws != [] && plan.Ok? ==>
                  && (forall i :: 0 <= i < |plan.value| ==> plan.value[i].op.key.Some?)
                  && out == CommitPrepared(h, st, catalog, plan.value))
  {
    if Prepare(st.tables, catalog, ws).Ok? { PrepareKeyed(st.tables, catalog, ws); }
  }

  /** ... with the maintenance that follows it. An engaged staging session neither
      buffers the group nor blocks it; it only overlays the sequence maintenance reads. */
  function PerformAtomic(h: Hash, st: Storage, catalog: seq<FamilyIdentity>, engaged: Option<nat>,
                         ws: seq<Write>): Done {
    var done := CommitAtomic(h, st, catalog, ws);
    Maintained(h, done, catalog, engaged.GetOr(Sequence(done.storage)))
  }

  /** The entries a commit added. */
  function Added(before: Storage, after: Storage): seq<Entry> {
    if |after.versioned| > |before.versioned| then after.versioned[|before.versioned|..] else []
  }

  // ---- The writing discipline ----

  /** Domain tables are written with domain keys, identified tables through the
      identified calls. */
  ghost predicate Disciplined(w: World, call: Call) {
    match call
    case Keyed(write) => write.key.Domain? && write.table !in w.identified
    case Batch(table, ops) => table !in w.identified && forall op :: op in ops ==> op.key.Domain?
    case _ => (call.table in w.identified)
  }

  ghost predicate DisciplinedWrites(w: World, ws: seq<Write>) {
    forall i :: 0 <= i < |ws| ==> ws[i].key.Domain? && ws[i].table !in w.identified
  }

  lemma {:induction false} DomainTexts(tables: Tables, ops: seq<LogOperation>)
    requires forall op :: op in ops ==> op.key.Some? && op.key.value.Domain?
    ensures TextsOnTables(tables, ops) == OperationsOnTables(tables, ops)
  {
    if ops != [] {
      assert ops[|ops| - 1] in ops;
      DomainTexts(tables, ops[..|ops| - 1]);
    }
  }

  lemma {:induction false} DomainAdvance(identified: map<Name, nat>, ops: seq<LogOperation>)
    requires forall op :: op in ops ==> op.key.Some? && op.key.value.Domain?
    ensures AdvanceIdentified(identified, ops) == identified
  {
    if ops != [] {
      assert ops[|ops| - 1] in ops;
      DomainAdvance(identified, ops[..|ops| - 1]);
    }
  }

  /** A versioned commit of operations is the append of their entry. */
  lemma CommitIsAppend(h: Hash, st: Storage, catalog: seq<FamilyIdentity>, ops: seq<LogOperation>)
    requires st.policy.Some?
    ensures Commit(h, st, catalog, ops, OperationsOnTables(st.tables, ops), AdvanceIdentified(st.identified, ops)) ==
            AppendEntry(st, NextEntry(h, st, catalog, ops))
    ensures Continues(h, st, NextEntry(h, st, catalog, ops))
  {
  }

  lemma PreparedCurrent(w: World, st: Storage, catalog: seq<FamilyIdentity>, ws: seq<Write>)
    requires CatalogOk(w, st, catalog) && DisciplinedWrites(w, ws) && Prepare(st.tables, catalog, ws).Ok?
    ensures AllCurrent(w, st.registrations, OpsOf(Prepare(st.tables, catalog, ws).value))
    ensures forall op :: op in OpsOf(Prepare(st.tables, catalog, ws).value) ==> op.key.Some? && op.key.value.Domain?
  {
    PrepareKeyed(st.tables, catalog, ws);
    var ops := OpsOf(Prepare(st.tables, catalog, ws).value);
    forall op | op in ops
      ensures Current(w, st.registrations, op) && op.key.value.Domain?
    {
      var i :| 0 <= i < |ops| && ops[i] == op;
      FindTableNamesIt(catalog, ws[i].table);
      assert FindTable(catalog, ws[i].table) == Lookup(st.registrations, ws[i].table);
    }
  }

  lemma IdentifiedCurrent(w: World, st: Storage, catalog: seq<FamilyIdentity>, kind: WriteKind, table: Name, id: nat,
                          record: Bytes)
    requires CatalogOk(w, st, catalog) && (table in w.identified)
    requires PlanIdentified(st.tables, catalog, kind, table, id, record).Ok?
    ensures var ops := OpsOf(PlanIdentified(st.tables, catalog, kind, table, id, record).value);
            && AllCurrent(w, st.registrations, ops)
            && |ops| == 1 && ops[0].family.table == table && ops[0].key == Some(Identifier(id))
            && ops[0].operation == OperationOf(kind)
  {
    FindTableNamesIt(catalog, table);
    assert FindTable(catalog, table) == Lookup(st.registrations, table);
  }

  /** Every disciplined call validates to current operations, which land in the
      tables and counters as the log records them. */
  lemma PlanCurrent(w: World, st: Storage, catalog: seq<FamilyIdentity>, call: Call)
    requires CatalogOk(w, st, catalog) && Disciplined(w, call)
    requires Plan(st.tables, st.identified, catalog, call).Ok?
    ensures var ops := OpsOf(Plan(st.tables, st.identified, catalog, call).value);
            && AllCurrent(w, st.registrations, ops)
            && (forall op :: op in ops ==> op.key.Some?)
            && LandedTables(st.tables, call, ops) == OperationsOnTables(st.tables, ops)
            && LandedCounters(st.identified, call) == AdvanceIdentified(st.identified, ops)
  {
    PlanKeyed(st.tables, st.identified, catalog, call);
    var ops := OpsOf(Plan(st.tables, st.identified, catalog, call).value);
    match call {
      case Keyed(write) =>
        PreparedCurrent(w, st, catalog, [write]);
        DomainTexts(st.tables, ops);
        DomainAdvance(st.identified, ops);
      case Batch(table, operations) =>
        PreparedCurrent(w, st, catalog, InTable(table, operations));
        DomainTexts(st.tables, ops);
        DomainAdvance(st.identified, ops);
      case AssertIdentified(table, record) =>
        IdentifiedCurrent(w, st, catalog, Assertion, table, NextIdentifier(st.identified, table), record);
        AdvanceOne(st.identified, ops);
      case MutateIdentified(table, id, record) =>
        IdentifiedCurrent(w, st, catalog, Mutation, table, id, record);
        AdvanceOne(st.identified, ops);
      case RetractIdentified(table, id) =>
        IdentifiedCurrent(w, st, catalog, Retraction, table, id, []);
        AdvanceOne(st.identified, ops);
    }
  }

  /** The commit of a disciplined direct call is the append of its entry. */
  lemma DirectIsAppend(h: Hash, w: World, st: Storage, catalog: seq<FamilyIdentity>, call: Call)
    requires CatalogOk(w, st, catalog) && Disciplined(w, call)
    requires Plan(st.tables, st.identified, catalog, call).Ok?
    ensures var ops := OpsOf(Plan(st.tables, st.identified, catalog, call).value);
            && AllCurrent(w, st.registrations, ops)
            && Direct(h, st, catalog, call).storage ==
               Commit(h, st, catalog, ops, OperationsOnTables(st.tables, ops), AdvanceIdentified(st.identified, ops))
  {
    PlanCurrent(w, st, catalog, call);
  }

  lemma AdvanceOne(identified: map<Name, nat>, ops: seq<LogOperation>)
    requires |ops| == 1 && ops[0].key.Some? && ops[0].key.value.Identifier?
    ensures AdvanceIdentified(identified, ops) ==
            if ops[0].operation.Assert? then identified[ops[0].family.table := ops[0].key.value.id + 1] else identified
  {
    assert ops[..0] == [];
    assert AdvanceIdentified(identified, ops[..0]) == identified;
  }

  // ---- Preservation ----

  lemma AlignedUnversioned(commits: seq<CommitEntry>, last: nat, c: CommitEntry)
    requires Aligned(commits, [], last) && c.sequence == last + 1
    ensures Aligned(commits + [c], [], last + 1)
  {
  }

  /** Without a policy a commit leaves the versioned plane alone; the store is
      then never complete, so nothing is claimed of its fold. */
  lemma UnversionedPreserves(h: Hash, w: World, st: Storage, catalog: seq<FamilyIdentity>, ops: seq<LogOperation>,
                             tables: Tables, identified: map<Name, nat>)
    requires Inv(h, w, st, catalog) && st.policy.None?
    ensures Inv(h, w, Commit(h, st, catalog, ops, tables, identified), catalog)
  {
    var st' := Commit(h, st, catalog, ops, tables, identified);
    AlignedUnversioned(st.commits, Sequence(st),
                       CommitEntry(Sequence(st) + 1, Snapshot(st) + 1, ProjectOperations(ops)));
    assert LatestCheckpoint(h, st') == LatestCheckpoint(h, st);
    assert LatestCheckpoint(h, st).value.None?;
  }

  lemma CommitPreserves(h: Hash, w: World, st: Storage, catalog: seq<FamilyIdentity>, ops: seq<LogOperation>)
    requires Inv(h, w, st, catalog) && AllCurrent(w, st.registrations, ops)
    ensures Inv(h, w,
                Commit(h, st, catalog, ops, OperationsOnTables(st.tables, ops), AdvanceIdentified(st.identified, ops)),
                catalog)
  {
    if st.policy.Some? {
      CommitIsAppend(h, st, catalog, ops);
      AppendPreserves(h, w, st, catalog, NextEntry(h, st, catalog, ops));
    } else {
      UnversionedPreserves(h, w, st, catalog, ops, OperationsOnTables(st.tables, ops),
                           AdvanceIdentified(st.identified, ops));
    }
  }

  /** Every disciplined direct call, accepted or refused, keeps the invariant. */
  lemma DirectPreserves(h: Hash, w: World, st: Storage, catalog: seq<FamilyIdentity>, call: Call)
    requires Inv(h, w, st, catalog) && Disciplined(w, call)
    ensures Inv(h, w, Direct(h, st, catalog, call).storage, catalog)
    ensures Direct(h, st, catalog, call).result.Err? ==> Direct(h, st, catalog, call).storage == st
  {
    var plan := Plan(st.tables, st.identified, catalog, call);
    if plan.Ok? {
      DirectIsAppend(h, w, st, catalog, call);
      CommitPreserves(h, w, st, catalog, OpsOf(plan.value));
    }
  }

  lemma AtomicIsAppend(h: Hash, w: World, st: Storage, catalog: seq<FamilyIdentity>, ws: seq<Write>)
    requires CatalogOk(w, st, catalog) && DisciplinedWrites(w, ws) && CommitAtomic(h, st, catalog, ws).result.Ok?
    ensures var ops := OpsOf(Prepare(st.tables, catalog, ws).value);
            && AllCurrent(w, st.registrations, ops)
            && CommitAtomic(h, st, catalog, ws).storage ==
               Commit(h, st, catalog, ops, OperationsOnTables(st.tables, ops), AdvanceIdentified(st.identified, ops))
  {
    PreparedCurrent(w, st, catalog, ws);
    var ops := OpsOf(Prepare(st.tables, catalog, ws).value);
    DomainTexts(st.tables, ops);
    DomainAdvance(st.identified, ops);
  }

  lemma AtomicPreserves(h: Hash, w: World, st: Storage, catalog: seq<FamilyIdentity>, ws: seq<Write>)
    requires Inv(h, w, st, catalog) && DisciplinedWrites(w, ws)
    ensures Inv(h, w, CommitAtomic(h, st, catalog, ws).storage, catalog)
    ensures CommitAtomic(h, st, catalog, ws).result.Err? ==> CommitAtomic(h, st, catalog, ws).storage == st
  {
    if CommitAtomic(h, st, catalog, ws).result.Ok? {
      AtomicIsAppend(h, w, st, catalog, ws);
      CommitPreserves(h, w, st, catalog, OpsOf(Prepare(st.tables, catalog, ws).value));
    }
  }
}
