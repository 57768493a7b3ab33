// What a write reports: its receipt names the commit it made, its deltas are the
// changes that commit logged, and only a blocked store refuses it after its plan.
module Reports {
  import opened ByteStrings
  import opened Errors
  import opened Versioning
  import opened CanonicalViews
  import opened Checkpoints
  import opened Catalogs
  import opened Stores
  import opened Invariants
  import opened Histories
  import opened Retention
  import opened Writes
  import opened Imports
  import opened Ledgers
  import opened Lifetimes

  // ---- One write and its traces ----

  ghost predicate SameKind(kind: WriteKind, operation: SemaOperation) {
    match kind
    case Assertion => operation == Assert
    case Mutation => operation == Mutate
    case Retraction => operation == Retract
  }

  /** The row a domain write names, as the tables hold it. */
  function RowNamed(w: Write): Coord { Coord(w.table, Domain(Text(w.key))) }

  /** The change one write announces: its record, or the row a retraction removed. */
  ghost predicate Tells(before: Tables, w: Write, snapshot: nat, d: Delta) {
    && SameKind(w.kind, d.operation) && d.table == w.table && d.key == w.key && d.snapshot == snapshot
    && if w.kind.Retraction? then RowNamed(w) in before && d.record == before[RowNamed(w)] else d.record == w.record
  }

  ghost predicate TellsAll(before: Tables, ws: seq<Write>, snapshot: nat, deltas: seq<Delta>) {
    |deltas| == |ws| && forall i :: 0 <= i < |ws| ==> Tells(before, ws[i], snapshot, deltas[i])
  }

  /** The row of the metadata log one write leaves. */
  ghost predicate Logs(w: Write, op: CommitOperation) {
    SameKind(w.kind, op.operation) && op.table == w.table && op.key == Some(w.key)
  }

  /** ... and of the versioned log, under the family registered at its table. */
  ghost predicate Records(families: seq<FamilyIdentity>, w: Write, op: LogOperation) {
    && SameKind(w.kind, op.operation) && op.key == Some(w.key)
    && op.family in families && op.family.table == w.table
    && if w.kind.Retraction? then op.payload == Tombstone else op.payload == Record(w.record)
  }

  /** A row of the metadata log made of these writes, numbered one past the store. */
  ghost predicate RowOf(st: Storage, row: CommitEntry, ws: seq<Write>) {
    && row.sequence == Sequence(st) + 1 && row.snapshot == Snapshot(st) + 1
    && |row.operations| == |ws| && forall i :: 0 <= i < |ws| ==> Logs(ws[i], row.operations[i])
  }

  ghost predicate EntryOf(st: Storage, families: seq<FamilyIdentity>, e: Entry, ws: seq<Write>) {
    && e.sequence == Sequence(st) + 1 && e.snapshot == Snapshot(st) + 1
    && |e.operations| == |ws| && forall i :: 0 <= i < |ws| ==> Records(families, ws[i], e.operations[i])
  }

  /** The last commit of the store is these writes, in both logs if the store is
      versioned, and the cursors are that commit's. */
  ghost predicate Commits(before: Storage, after: Storage, families: seq<FamilyIdentity>, ws: seq<Write>) {
    && |after.commits| == |before.commits| + 1 && after.commits[..|before.commits|] == before.commits
    && RowOf(before, after.commits[|before.commits|], ws)
    && after.sequence == Some(Sequence(before) + 1) && after.snapshot == Some(Snapshot(before) + 1)
    && (before.policy.None? ==> after.versioned == before.versioned)
    && (before.policy.Some? ==>
          && |after.versioned| == |before.versioned| + 1 && after.versioned[..|before.versioned|] == before.versioned
          && EntryOf(before, families, after.versioned[|before.versioned|], ws))
  }

  /** The receipt names the commit the write made. */
  ghost predicate Names(after: Storage, r: Receipt, count: nat) {
    && after.commits != [] && r.count == count
    && r.sequence == after.commits[|after.commits| - 1].sequence
    && r.snapshot == after.commits[|after.commits| - 1].snapshot
  }

  /** A validated write, told. */
  lemma PreparedTells(tables: Tables, catalog: seq<FamilyIdentity>, w: Write, snapshot: nat)
    requires PrepareOne(tables, catalog, w).Ok?
    ensures var p := PrepareOne(tables, catalog, w).value;
            && p.op.key == Some(w.key) && Records(catalog, w, p.op) && Logs(w, ProjectOperation(p.op))
            && Tells(tables, w, snapshot, Delta(p.op.operation, p.op.family.table, w.key, snapshot, p.record))
  {
    FindTableNamesIt(catalog, w.table);
  }

  lemma PreparedTellAll(tables: Tables, catalog: seq<FamilyIdentity>, ws: seq<Write>, ps: seq<Prepared>,
                        snapshot: nat)
    requires Prepare(tables, catalog, ws) == Ok(ps)
    ensures |ps| == |ws| && forall i :: 0 <= i < |ps| ==> ps[i].op.key.Some?
    ensures TellsAll(tables, ws, snapshot, DeltasOf(ps, snapshot))
    ensures forall i :: 0 <= i < |ws| ==> Records(catalog, ws[i], ps[i].op) && Logs(ws[i], ProjectOperation(ps[i].op))
  {
    PrepareKeyed(tables, catalog, ws);
    forall i | 0 <= i < |ws|
      ensures Tells(tables, ws[i], snapshot, DeltasOf(ps, snapshot)[i])
      ensures Records(catalog, ws[i], ps[i].op) && Logs(ws[i], ProjectOperation(ps[i].op))
    {
      PreparedTells(tables, catalog, ws[i], snapshot);
    }
  }

  lemma CommitOfWrites(h: Hash, st: Storage, catalog: seq<FamilyIdentity>, ws: seq<Write>, ops: seq<LogOperation>,
                       tables: Tables, identified: map<Name, nat>)
    requires |ops| == |ws|
    requires forall i :: 0 <= i < |ws| ==> Records(catalog, ws[i], ops[i]) && Logs(ws[i], ProjectOperation(ops[i]))
    ensures Commits(st, Commit(h, st, catalog, ops, tables, identified), catalog, ws)
  {
  }

  // ---- Groups ----

  /** An accepted group is one commit of exactly its writes: the receipt carries that
      commit's own sequence and snapshot and the number of writes, and the deltas are
      the writes in order, at that snapshot, with the rows its retractions removed. */
  lemma GroupReports(h: Hash, st: Storage, catalog: seq<FamilyIdentity>, ws: seq<Write>)
    requires CommitAtomic(h, st, catalog, ws).result.Ok?
    ensures var done := CommitAtomic(h, st, catalog, ws);
            && Commits(st, done.storage, catalog, ws) && Names(done.storage, done.result.value, |ws|)
            && TellsAll(st.tables, ws, done.result.value.snapshot, done.deltas)
  {
    var ps := Prepare(st.tables, catalog, ws).value;
    PreparedTellAll(st.tables, catalog, ws, ps, Snapshot(st) + 1);
    CommitOfWrites(h, st, catalog, ws, OpsOf(ps), TextsOnTables(st.tables, OpsOf(ps)), st.identified);
  }

  // ---- Direct calls ----

  /** The writes a domain call makes. */
  function WritesOf(call: Call): seq<Write>
    requires call.Keyed? || call.Batch?
  {
    match call
    case Keyed(w) => [w]
    case Batch(table, ops) =>
      seq(|ops|, i requires 0 <= i < |ops| => Write(ops[i].kind, table, ops[i].key, ops[i].record))
  }

  /** So is an accepted domain call: its receipt names its table, and its key if it is
      a single write. */
  lemma DomainCallReports(h: Hash, st: Storage, catalog: seq<FamilyIdentity>, call: Call)
    requires (call.Keyed? || call.Batch?) && Direct(h, st, catalog, call).result.Ok?
    ensures var done, ws := Direct(h, st, catalog, call), WritesOf(call);
            && Commits(st, done.storage, catalog, ws) && Names(done.storage, done.result.value, |ws|)
            && TellsAll(st.tables, ws, done.result.value.snapshot, done.deltas)
            && (forall i :: 0 <= i < |ws| ==> done.result.value.table == ws[i].table)
            && done.result.value.key == if call.Keyed? then Some(call.write.key) else None
  {
    var ws := WritesOf(call);
    assert call.Batch? ==> ws == InTable(call.batchTable, call.operations);
    DirectIs(h, st, catalog, call);
    var ps := Prepare(st.tables, catalog, ws).value;
    PreparedTellAll(st.tables, catalog, ws, ps, Snapshot(st) + 1);
    CommitOfWrites(h, st, catalog, ws, OpsOf(ps), LandedTables(st.tables, call, OpsOf(ps)),
                   LandedCounters(st.identified, call));
  }

  /** The write an identified call makes: an assert takes the table's next identifier. */
  function IdentifiedWrite(st: Storage, call: Call): Write
    requires !call.Keyed? && !call.Batch?
  {
    match call
    case AssertIdentified(table, record) =>
      Write(Assertion, table, Identifier(if table in st.identified then st.identified[table] else 1), record)
    case MutateIdentified(table, id, record) => Write(Mutation, table, Identifier(id), record)
    case RetractIdentified(table, id) => Write(Retraction, table, Identifier(id), [])
  }

  /** An accepted identified call is one commit too, named by its receipt with the
      identifier it wrote, and nothing is announced. It is accepted if and only if its
      table is registered and holds the row it changes or removes. */
  lemma IdentifiedCallReports(h: Hash, st: Storage, catalog: seq<FamilyIdentity>, call: Call)
    requires !call.Keyed? && !call.Batch?
    ensures var done, w := Direct(h, st, catalog, call), IdentifiedWrite(st, call);
            && (done.result.Ok? <==>
                  (exists f :: f in catalog && f.table == w.table)
                  && (!w.kind.Assertion? ==> Coord(w.table, w.key) in st.tables))
            && (done.result.Ok? ==>
                  && Commits(st, done.storage, catalog, [w]) && Names(done.storage, done.result.value, 1)
                  && done.result.value.table == w.table && done.result.value.key == Some(w.key) && done.deltas == []
                  && done.storage.tables == (if w.kind.Retraction? then st.tables - {Coord(w.table, w.key)}
                                             else st.tables[Coord(w.table, w.key) := w.record]))
  {
    var w := IdentifiedWrite(st, call);
    DirectIs(h, st, catalog, call);
    IdentifiedPlan(st, catalog, call);
    var plan := Plan(st.tables, st.identified, catalog, call);
    if plan.Ok? {
      var ops := OpsOf(plan.value);
      OneOperation(st.tables, ops);
      CommitOfWrites(h, st, catalog, [w], ops, LandedTables(st.tables, call, ops),
                     LandedCounters(st.identified, call));
    }
  }

  /** An identified call plans one write, to a registered table and a row that is there. */
  lemma IdentifiedPlan(st: Storage, catalog: seq<FamilyIdentity>, call: Call)
    requires !call.Keyed? && !call.Batch?
    ensures var w, plan := IdentifiedWrite(st, call), Plan(st.tables, st.identified, catalog, call);
            && (plan.Ok? <==> (exists f :: f in catalog && f.table == w.table)
                              && (!w.kind.Assertion? ==> Coord(w.table, w.key) in st.tables))
            && (plan.Ok? ==>
                  && |plan.value| == 1 && Records(catalog, w, plan.value[0].op)
                  && Logs(w, ProjectOperation(plan.value[0].op)))
  {
    var w := IdentifiedWrite(st, call);
    FoundIn(catalog, w.table);
    FindTableNamesIt(catalog, w.table);
  }

  lemma OneOperation(tables: Tables, ops: seq<LogOperation>)
    requires |ops| == 1
    ensures OperationsOnTables(tables, ops) == OperationOnTables(tables, ops[0])
  {
    assert ops[..0] == [];
    assert OperationsOnTables(tables, ops[..0]) == tables;
  }

  // ---- With the maintenance that follows ----

  lemma MaintainedReports(h: Hash, done: Done, catalog: seq<FamilyIdentity>, current: nat)
    ensures var out := Maintained(h, done, catalog, current);
            && out.deltas == done.deltas && (out.result.Ok? ==> out.result == done.result)
            && OnlyHistory(done.storage, out.storage)
            && (done.result.Err? ==> out == done)
            && (done.result.Ok? ==> (out.result.Ok? <==> Maintain(h, done.storage, catalog, current).result.Ok?))
  {
    MaintainMovesHistory(h, done.storage, catalog, current);
  }

  /** A whole direct call reports and announces what its commit did, and an accepted
      one names the store's own cursors; what maintenance does after it shows nowhere
      else than in history. */
  lemma PerformReports(h: Hash, st: Storage, catalog: seq<FamilyIdentity>, call: Call)
    ensures var done, out := Direct(h, st, catalog, call), Perform(h, st, catalog, call);
            && out.deltas == done.deltas && OnlyHistory(done.storage, out.storage)
            && (out.result.Ok? ==> done.result == out.result && out.storage.sequence == Some(out.result.value.sequence)
                                   && out.storage.snapshot == Some(out.result.value.snapshot))
  {
    var done := Direct(h, st, catalog, call);
    if IsDomainCall(call) { MaintainedReports(h, done, catalog, Sequence(done.storage)); }
    if done.result.Ok? {
      if IsDomainCall(call) {
        DomainCallReports(h, st, catalog, call);
      } else {
        IdentifiedCallReports(h, st, catalog, call);
      }
    }
  }

  lemma PerformAtomicReports(h: Hash, st: Storage, catalog: seq<FamilyIdentity>, engaged: Option<nat>, ws: seq<Write>)
    ensures var done, out := CommitAtomic(h, st, catalog, ws), PerformAtomic(h, st, catalog, engaged, ws);
            && out.deltas == done.deltas && OnlyHistory(done.storage, out.storage)
            && (out.result.Ok? ==> done.result == out.result && out.storage.sequence == Some(out.result.value.sequence)
                                   && out.storage.snapshot == Some(out.result.value.snapshot))
  {
    var done := CommitAtomic(h, st, catalog, ws);
    MaintainedReports(h, done, catalog, engaged.GetOr(Sequence(done.storage)));
    if done.result.Ok? { GroupReports(h, st, catalog, ws); }
  }

  // ---- When a write is refused ----

  lemma AppendedVerdict(h: Hash, w: World, st: Storage, catalog: seq<FamilyIdentity>, e: Entry, appended: Storage,
                        latest: Option<Checkpoint>, current: nat)
    requires Inv(h, w, st, catalog) && LatestCheckpoint(h, st) == Ok(latest) && MirrorOk(st) && st.policy.Some?
             && Complete(st)
    requires NextOk(h, w, st, e) && AllCurrent(w, st.registrations, e.operations) && appended == AppendEntry(st, e)
    requires MaintainClear(h, appended, catalog, current)
    ensures Sequence(appended) == Sequence(st) + 1
    ensures Maintain(h, appended, catalog, current).result.Ok? <==> !Blocked(st, latest, current, |st.versioned| + 1)
    ensures current == Sequence(st) + 1 ==>
              (Blocked(st, latest, current, |st.versioned| + 1)
               <==> Mirrored(st) && |st.versioned| >= st.policy.value.maximumLive)
  {
    AppendPreserves(h, w, st, catalog, e);
    assert AppendEntry(st, e).(registrations := appended.registrations) == appended;
    AppendVerdict(h, w, st, e, appended, catalog, latest, current);
    PersistedIsFresh(h, st, e, appended, latest, current);
  }

  /** A validated domain call is refused only where its store is blocked, and by then
      its commit is durable: a mirrored store at its live budget. */
  lemma PerformVerdict(h: Hash, w: World, st: Storage, catalog: seq<FamilyIdentity>, call: Call)
    requires Inv(h, w, st, catalog) && MirrorOk(st) && st.policy.Some? && Complete(st)
    requires Disciplined(w, call) && (call.Keyed? || call.Batch?)
    requires var done := Direct(h, st, catalog, call);
             done.result.Ok? ==> MaintainClear(h, done.storage, catalog, Sequence(done.storage))
    ensures Perform(h, st, catalog, call).result.Ok? <==>
            Plan(st.tables, st.identified, catalog, call).Ok?
            && !(Mirrored(st) && |st.versioned| >= st.policy.value.maximumLive)
  {
    var done := Direct(h, st, catalog, call);
    DirectIs(h, st, catalog, call);
    DirectAppends(h, w, st, catalog, call);
    MaintainedVerdict(h, w, st, catalog, done, Sequence(done.storage));
    PerformIs(h, st, catalog, call, done);
  }

  lemma PerformIs(h: Hash, st: Storage, catalog: seq<FamilyIdentity>, call: Call, done: Done)
    requires (call.Keyed? || call.Batch?) && done == Direct(h, st, catalog, call)
    ensures Perform(h, st, catalog, call) == Maintained(h, done, catalog, Sequence(done.storage))
  {
  }

  lemma PerformAtomicIs(h: Hash, st: Storage, catalog: seq<FamilyIdentity>, engaged: Option<nat>, ws: seq<Write>,
                        done: Done)
    requires done == CommitAtomic(h, st, catalog, ws)
    ensures PerformAtomic(h, st, catalog, engaged, ws) ==
              Maintained(h, done, catalog, engaged.GetOr(Sequence(done.storage)))
    ensures done.result.Ok? <==> ws != [] && Prepare(st.tables, catalog, ws).Ok?
  {
  }

  /** A commit of one accepted entry, maintained. */
  lemma MaintainedVerdict(h: Hash, w: World, st: Storage, catalog: seq<FamilyIdentity>, done: Done, current: nat)
    requires Inv(h, w, st, catalog) && MirrorOk(st) && st.policy.Some? && Complete(st)
    requires done.result.Ok? ==>
               exists e :: done.storage == AppendEntry(st, e) && NextOk(h, w, st, e)
                   && AllCurrent(w, st.registrations, e.operations)
    requires done.result.Ok? ==> MaintainClear(h, done.storage, catalog, current)
    ensures done.result.Ok? ==> Sequence(done.storage) == Sequence(st) + 1
    ensures var blocked := Blocked(st, LatestCheckpoint(h, st).value, current, |st.versioned| + 1);
            && (Maintained(h, done, catalog, current).result.Ok? <==> done.result.Ok? && !blocked)
            && (current == Sequence(st) + 1 ==>
                  (blocked <==> Mirrored(st) && |st.versioned| >= st.policy.value.maximumLive))
  {
    MaintainedReports(h, done, catalog, current);
    if done.result.Ok? {
      var e :| done.storage == AppendEntry(st, e) && NextOk(h, w, st, e)
          && AllCurrent(w, st.registrations, e.operations);
      AppendedVerdict(h, w, st, catalog, e, done.storage, LatestCheckpoint(h, st).value, current);
    }
  }

  /** So is a validated group; an engaged session moves the sequence the budget is
      measured at. */
  lemma PerformAtomicVerdict(h: Hash, w: World, st: Storage, catalog: seq<FamilyIdentity>, engaged: Option<nat>,
                             ws: seq<Write>)
    requires Inv(h, w, st, catalog) && MirrorOk(st) && st.policy.Some? && Complete(st) && DisciplinedWrites(w, ws)
    requires var done := CommitAtomic(h, st, catalog, ws);
             done.result.Ok? ==> MaintainClear(h, done.storage, catalog, engaged.GetOr(Sequence(done.storage)))
    ensures PerformAtomic(h, st, catalog, engaged, ws).result.Ok? <==>
            ws != [] && Prepare(st.tables, catalog, ws).Ok?
            && !Blocked(st, LatestCheckpoint(h, st).value, engaged.GetOr(Sequence(st) + 1), |st.versioned| + 1)
  {
    var done := CommitAtomic(h, st, catalog, ws);
    AtomicAppends(h, w, st, catalog, ws);
    MaintainedVerdict(h, w, st, catalog, done, engaged.GetOr(Sequence(done.storage)));
    PerformAtomicIs(h, st, catalog, engaged, ws, done);
  }
}
