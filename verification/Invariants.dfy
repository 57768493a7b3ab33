// The store invariant, and its preservation by a commit.
module Invariants {
  import opened ByteStrings
  import opened Errors
  import opened Versioning
  import opened CanonicalViews
  import opened Checkpoints
  import opened Catalogs
  import opened Stores

  /** What the component's code fixes for the whole life of a store: the table
      each family version lives in, and which tables are engine-identified. */
  datatype World = World(homes: map<FamilyKey, Name>, identified: set<Name>) {
    function Home(fk: FamilyKey): Name { if fk in homes then homes[fk] else [] }
  }

  ghost predicate Homed(w: World, rows: map<Name, FamilyIdentity>) {
    forall t :: t in rows ==> rows[t].table == t && w.Home(rows[t].Key()) == t
  }

  ghost predicate CatalogOk(w: World, st: Storage, catalog: seq<FamilyIdentity>) {
    Homed(w, st.registrations) && Lists(catalog, st.registrations)
  }

  // ---- Tables against rows ----

  function KeyAt(registrations: map<Name, FamilyIdentity>, c: Coord): ViewKey
    requires c.table in registrations
  {
    ViewKey(registrations[c.table].family, registrations[c.table].schemaHash, c.slot)
  }

  function CoordOf(w: World, k: ViewKey): Coord { Coord(w.Home(k.Family()), k.key) }

  /** Every stored row is a row of the view, under its table's registered family. */
  ghost predicate TablesInRows(tables: Tables, rows: map<ViewKey, Bytes>, registrations: map<Name, FamilyIdentity>) {
    forall c {:trigger tables[c]} :: c in tables ==>
      c.table in registrations && KeyAt(registrations, c) in rows && rows[KeyAt(registrations, c)] == tables[c]
  }

  /** Every row of the view is stored, and its family is currently registered. */
  ghost predicate RowsInTables(w: World, tables: Tables, rows: map<ViewKey, Bytes>,
                               registrations: map<Name, FamilyIdentity>) {
    forall k {:trigger k in rows} :: k in rows ==>
      CoordOf(w, k) in tables && CoordOf(w, k).table in registrations
      && registrations[CoordOf(w, k).table].Key() == k.Family()
  }

  /** The tables hold exactly the view's rows. */
  ghost predicate Agrees(w: World, tables: Tables, rows: map<ViewKey, Bytes>,
                         registrations: map<Name, FamilyIdentity>) {
    TablesInRows(tables, rows, registrations) && RowsInTables(w, tables, rows, registrations)
  }

  /** An engine-made operation on a family of this world. */
  ghost predicate Placed(w: World, op: LogOperation) {
    && Applicable(op)
    && (op.operation.Retract? ==> op.payload.Tombstone?)
    && w.Home(op.family.Key()) == op.family.table
    && op.key.value.Identifier? == (op.family.table in w.identified)
  }

  /** ... whose family is the one registered at its table. */
  ghost predicate Current(w: World, registrations: map<Name, FamilyIdentity>, op: LogOperation) {
    Placed(w, op) && op.family.table in registrations && registrations[op.family.table] == op.family
  }

  ghost predicate AllPlaced(w: World, ops: seq<LogOperation>) {
    forall op :: op in ops ==> Placed(w, op)
  }

  ghost predicate AllCurrent(w: World, registrations: map<Name, FamilyIdentity>, ops: seq<LogOperation>) {
    forall op :: op in ops ==> Current(w, registrations, op)
  }

  lemma AgreesOperation(w: World, tables: Tables, rows: map<ViewKey, Bytes>, registrations: map<Name, FamilyIdentity>,
                        op: LogOperation)
    requires Homed(w, registrations) && Agrees(w, tables, rows, registrations) && Current(w, registrations, op)
    ensures Agrees(w, OperationOnTables(tables, op), OperationOnRows(rows, op), registrations)
  {
    var c, k := Coord(op.family.table, op.key.value), OperationAt(op);
    assert KeyAt(registrations, c) == k && CoordOf(w, k) == c;
    var tables', rows' := OperationOnTables(tables, op), OperationOnRows(rows, op);
    forall d | d in tables'
      ensures d.table in registrations && KeyAt(registrations, d) in rows'
              && rows'[KeyAt(registrations, d)] == tables'[d]
    {
      if d != c {
        assert d in tables;
        assert CoordOf(w, KeyAt(registrations, d)) == d;
      }
    }
    forall l | l in rows'
      ensures CoordOf(w, l) in tables' && CoordOf(w, l).table in registrations
      ensures registrations[CoordOf(w, l).table].Key() == l.Family()
    {
      if l != k {
        assert l in rows;
        assert KeyAt(registrations, CoordOf(w, l)) == l;
      }
    }
  }

  lemma {:induction false} AgreesOperations(w: World, tables: Tables, rows: map<ViewKey, Bytes>,
                                            registrations: map<Name, FamilyIdentity>, ops: seq<LogOperation>)
    requires Homed(w, registrations) && Agrees(w, tables, rows, registrations) && AllCurrent(w, registrations, ops)
    ensures Agrees(w, OperationsOnTables(tables, ops), OperationsOnRows(rows, ops), registrations)
  {
    if ops != [] {
      var init, last := ops[..|ops| - 1], ops[|ops| - 1];
      assert last in ops;
      AgreesOperations(w, tables, rows, registrations, init);
      AgreesOperation(w, OperationsOnTables(tables, init), OperationsOnRows(rows, init), registrations, last);
    }
  }

  // ---- Views of this world ----

  ghost predicate ViewOk(w: World, v: View) {
    && SelfDescribing(v)
    && (forall fk :: fk in v.identities ==> v.identities[fk].table == w.Home(fk))
    && (forall k :: k in v.touched ==> k.key.Identifier? == (w.Home(k.Family()) in w.identified))
  }

  lemma ViewOkOperation(w: World, v: View, op: LogOperation)
    requires ViewOk(w, v) && Placed(w, op)
    ensures ApplyOperation(v, op).Ok? && ViewOk(w, ApplyOperation(v, op).value)
  {
  }

  lemma {:induction false} ViewOkOperations(w: World, v: View, ops: seq<LogOperation>)
    requires ViewOk(w, v) && AllPlaced(w, ops)
    ensures ApplyOperations(v, ops).Ok? && ViewOk(w, ApplyOperations(v, ops).value)
  {
    if ops != [] {
      var init, last := ops[..|ops| - 1], ops[|ops| - 1];
      assert last in ops;
      ViewOkOperations(w, v, init);
      ViewOkOperation(w, ApplyOperations(v, init).value, last);
    }
  }

  // ---- The invariant ----

  /** The metadata log is the projection of the versioned log wherever both reach,
      and both are numbered consecutively up to the cursor. */
  ghost predicate Aligned(commits: seq<CommitEntry>, versioned: seq<Entry>, last: nat) {
    && |versioned| <= |commits| <= last
    && (forall i :: 0 <= i < |commits| ==> commits[i].sequence == last - |commits| + 1 + i)
    && (forall i :: 0 <= i < |versioned| ==> versioned[i].sequence == last - |versioned| + 1 + i)
    && (forall i :: 0 <= i < |versioned| ==> Project(versioned[i]) == commits[|commits| - |versioned| + i])
  }

  /** Counts equal lengths, and the logs are aligned. */
  ghost predicate Sequenced(st: Storage) {
    && st.commitCount == |st.commits| && st.versionedCount == |st.versioned|
    && Aligned(st.commits, st.versioned, Sequence(st))
    && (st.policy.None? ==> st.versioned == [])
  }

  /** The retained log is one chain, and the head slot is its last digest. */
  ghost predicate Linked(h: Hash, st: Storage) {
    st.versioned != [] ==>
      && Chained(h, st.versioned, st.versioned[0].previous)
      && st.head == Some(st.versioned[|st.versioned| - 1].digest)
  }

  /** The checkpoint covers a prefix that ends inside the log. */
  ghost predicate CoversOk(st: Storage, c: Option<Checkpoint>) {
    match c
    case None => Complete(st) ==> |st.versioned| == Sequence(st)
    case Some(ck) =>
      && st.policy.Some? && Complete(st)
      && st.latestCheckpoint == Some(ck.metadata.sequence)
      && Sequence(st) - |st.versioned| <= ck.metadata.last <= Sequence(st)
  }

  /** The fold of base and suffix succeeds, ends at the head slot, and while the
      versioned log is complete the tables are exactly its rows. */
  ghost predicate FoldOk(h: Hash, w: World, st: Storage, c: Option<Checkpoint>) {
    var b, v := BaseOf(c), ViewOver(h, st, c);
    && v.Ok? && ViewOk(w, v.value)
    && st.head == HeadAfter(EntriesFrom(st.versioned, b.after + 1), b.head)
    && (Complete(st) ==> Agrees(w, st.tables, v.value.rows, st.registrations))
  }

  ghost predicate Inv(h: Hash, w: World, st: Storage, catalog: seq<FamilyIdentity>) {
    && CatalogOk(w, st, catalog)
    && Sequenced(st)
    && Linked(h, st)
    && var c := LatestCheckpoint(h, st);
       c.Ok? && CoversOk(st, c.value) && FoldOk(h, w, st, c.value)
  }

  lemma EmptyInv(h: Hash, w: World, policy: Option<Policy>)
    ensures Inv(h, w, EmptyStore(policy), [])
  {
  }

  /** An entry that continues the store's log. */
  ghost predicate Continues(h: Hash, st: Storage, e: Entry) {
    Links(h, e, st.head) && e.sequence == Sequence(st) + 1
  }

  // ---- A commit preserves it ----

  lemma AlignedAppend(commits: seq<CommitEntry>, versioned: seq<Entry>, last: nat, e: Entry)
    requires Aligned(commits, versioned, last) && e.sequence == last + 1
    ensures Aligned(commits + [Project(e)], versioned + [e], last + 1)
  {
  }

  lemma AlignedSuffix(commits: seq<CommitEntry>, versioned: seq<Entry>, last: nat, cut: nat)
    requires Aligned(commits, versioned, last) && |commits| == |versioned| && cut <= |commits|
    ensures Aligned(commits[cut..], versioned[cut..], last)
  {
  }

  lemma AppendSequenced(st: Storage, e: Entry)
    requires Sequenced(st) && st.policy.Some? && e.sequence == Sequence(st) + 1
    ensures Sequenced(AppendEntry(st, e))
  {
    AlignedAppend(st.commits, st.versioned, Sequence(st), e);
  }

  lemma AppendLinked(h: Hash, st: Storage, e: Entry)
    requires Linked(h, st) && Links(h, e, st.head)
    ensures Linked(h, AppendEntry(st, e))
  {
    var log := st.versioned + [e];
    assert log[..|log| - 1] == st.versioned;
    if st.versioned == [] { assert Chained(h, [], e.previous); }
  }

  lemma AppendKeepsCheckpoint(h: Hash, st: Storage, e: Entry)
    ensures LatestCheckpoint(h, AppendEntry(st, e)) == LatestCheckpoint(h, st)
  {
  }

  /** The fold of the extended log is one step from the fold before. */
  lemma FoldOneMore(h: Hash, rows: seq<ViewRow>, suffix: seq<Entry>, head: Option<Digest>, e: Entry)
    requires Fold(h, rows, suffix, head).Ok? && Links(h, e, HeadAfter(suffix, head))
    ensures Fold(h, rows, suffix + [e], head) == ApplyOperations(Fold(h, rows, suffix, head).value, e.operations)
    ensures HeadAfter(suffix + [e], head) == Some(e.digest)
  {
    assert (suffix + [e])[..|suffix|] == suffix;
  }

  lemma SuffixOneMore(st: Storage, c: Option<Checkpoint>, e: Entry)
    requires CoversOk(st, c) && e.sequence == Sequence(st) + 1
    ensures EntriesFrom(AppendEntry(st, e).versioned, BaseOf(c).after + 1) ==
            EntriesFrom(st.versioned, BaseOf(c).after + 1) + [e]
  {
    FromAppend(st.versioned, e, EntryRowSequence, BaseOf(c).after + 1);
  }

  /** A commit of placed operations moves the view by exactly those operations. */
  lemma AppendMovesView(h: Hash, w: World, st: Storage, c: Option<Checkpoint>, e: Entry)
    requires CoversOk(st, c) && FoldOk(h, w, st, c) && Continues(h, st, e) && AllPlaced(w, e.operations)
    ensures var b, v, st' := BaseOf(c), ViewOver(h, st, c).value, AppendEntry(st, e);
            var v' := ViewOver(h, st', c);
            && v'.Ok? && ViewOk(w, v'.value) && v'.value.rows == OperationsOnRows(v.rows, e.operations)
            && st'.head == HeadAfter(EntriesFrom(st'.versioned, b.after + 1), b.head)
  {
    var b, v := BaseOf(c), ViewOver(h, st, c).value;
    SuffixOneMore(st, c, e);
    FoldOneMore(h, b.rows, EntriesFrom(st.versioned, b.after + 1), b.head, e);
    ViewOkOperations(w, v, e.operations);
    OperationsMeaning(v, e.operations);
  }

  /** The commit step of every write path that leaves the catalog alone. */
  lemma AppendPreserves(h: Hash, w: World, st: Storage, catalog: seq<FamilyIdentity>, e: Entry)
    requires Inv(h, w, st, catalog) && st.policy.Some? && Continues(h, st, e)
    requires AllCurrent(w, st.registrations, e.operations)
    ensures Inv(h, w, AppendEntry(st, e), catalog)
  {
    var c := LatestCheckpoint(h, st).value;
    AppendSequenced(st, e);
    AppendLinked(h, st, e);
    AppendKeepsCheckpoint(h, st, e);
    AppendMovesView(h, w, st, c, e);
    if Complete(st) {
      AgreesOperations(w, st.tables, ViewOver(h, st, c).value.rows, st.registrations, e.operations);
    }
  }
}
