// Restore: a checkpoint and a log suffix applied to a fresh store.
module Imports {
  import opened ByteStrings
  import opened Errors
  import opened Versioning
  import opened CanonicalViews
  import opened Checkpoints
  import opened Catalogs
  import opened Stores
  import opened Invariants
  import opened Histories
  import opened Retention
  import opened Writes
  import opened Rebuilding
  import opened Staging
  import opened StagingLaws

  predicate Fresh(st: Storage, catalog: seq<FamilyIdentity>) {
    && catalog == [] && st.sequence.None? && st.snapshot.None? && st.latestCheckpoint.None?
    && st.registrations == map[] && st.commits == [] && st.versioned == []
  }

  /** Write a log row at its key: in key order, replacing the row of that key. */
  function Put<T>(rows: seq<T>, at: T -> nat, row: T): seq<T> {
    if rows == [] then [row]
    else
      var n := |rows| - 1;
      if at(rows[n]) < at(row) then rows + [row]
      else if at(rows[n]) == at(row) then rows[..n] + [row]
      else Put(rows[..n], at, row) + [rows[n]]
  }

  /** Restore one suffix entry, as the `count`th of both logs. */
  function RestoreEntry(st: Storage, e: Entry, count: nat): Storage {
    st.(versioned := Put(st.versioned, EntryRowSequence, e),
        head := Some(e.digest),
        versionedCount := count,
        outbox := if Mirrored(st) then Put(st.outbox, OutboxRowSequence, OutboxRow(e.sequence, e.digest))
            else st.outbox,
        commits := Put(st.commits, CommitRowSequence, Project(e)),
        commitCount := count)
  }

  function RestoreEntries(st: Storage, suffix: seq<Entry>): Storage {
    if suffix == [] then st
    else RestoreEntry(RestoreEntries(st, suffix[..|suffix| - 1]), suffix[|suffix| - 1], |suffix|)
  }

  function BindAll(registrations: map<Name, FamilyIdentity>, families: seq<FamilyIdentity>): map<Name, FamilyIdentity> {
    if families == [] then registrations
    else BindAll(registrations, families[..|families| - 1])[families[|families| - 1].table := families[|families| - 1]]
  }

  function CountAll(identified: map<Name, nat>, counters: seq<IdentifiedCounter>): map<Name, nat> {
    if counters == [] then identified
    else CountAll(identified,
                  counters[..|counters| - 1])[counters[|counters| - 1].table := counters[|counters| - 1].next]
  }

  datatype CatalogInsert = CatalogInsert(result: Result<()>, catalog: seq<FamilyIdentity>)

  function InsertFamilies(catalog: seq<FamilyIdentity>, families: seq<FamilyIdentity>): CatalogInsert
    decreases |families|
  {
    if families == [] then CatalogInsert(Ok(()), catalog)
    else
      var inserted := Inserted(catalog, families[0]);
      if inserted.Err? then CatalogInsert(Err(inserted.error), catalog)
      else InsertFamilies(inserted.value, families[1..])
  }

  datatype ImportReceipt =
    ImportReceipt(first: nat, last: nat, suffix: nat, viewDigest: Digest, rows: nat, sequence: nat, snapshot: nat)
  datatype Imported = Imported(result: Result<ImportReceipt>, storage: Storage, catalog: seq<FamilyIdentity>)

  function CursorAfter(m: Metadata, suffix: seq<Entry>): (nat, nat) {
    if suffix == [] then (m.last, m.coveredSnapshot) else (suffix[|suffix| - 1].sequence, suffix[|suffix| - 1].snapshot)
  }

  /** Everything an import writes, in one transaction. */
  function Restored(h: Hash, st: Storage, k: Checkpoint, suffix: seq<Entry>, tables: Tables): Storage {
    var m := k.metadata;
    RestoreEntries(st, suffix).(
      registrations := BindAll(st.registrations, m.inventory.families),
      identified := CountAll(st.identified, m.inventory.counters),
      checkpoints := st.checkpoints[m.sequence := m],
      segments := StoreSegments(h, st.segments, k.segments),
      latestCheckpoint := Some(m.sequence),
      sequence := Some(CursorAfter(m, suffix).0),
      snapshot := Some(CursorAfter(m, suffix).1),
      tables := tables)
  }

  function BeginImport(st: Storage, catalog: seq<FamilyIdentity>): Result<()> {
    if st.policy.None? then Err(VersioningNotEnabled)
    else if !Fresh(st, catalog) then Err(ImportStoreNotFresh)
    else Ok(())
  }

  /** What an import refuses before it folds anything. */
  function ImportAdmits(h: Hash, st: Storage, catalog: seq<FamilyIdentity>, m: Metadata): Result<()> {
    if st.policy.None? then Err(VersioningNotEnabled)
    else if m.storeName != st.policy.value.storeName then Err(ImportStoreNameMismatch)
    else if StoreSchemaHash(h, m.inventory.families) != m.schemaHash then Err(CheckpointSchemaMismatch)
    else if !Fresh(st, catalog) then Err(ImportStoreNotFresh)
    else Ok(())
  }

  datatype Folded = Folded(tables: Tables, viewDigest: Digest, rows: nat)

  /** Fold the checkpoint's rows and the suffix, and land every row. */
  function FoldImport(h: Hash, tables: Tables, directory: Directory, k: Checkpoint,
                      suffix: seq<Entry>): Result<Folded> {
    var view := Fold(h, k.Rows(), suffix, Some(k.metadata.coveredDigest));
    if view.Err? then Err(view.error)
    else
      var rows := IntoRows(view.value, k.metadata.inventory.families);
      if rows.Err? then Err(rows.error)
      else
        var landed := MaterializeAll(directory, tables, rows.value.Ordered());
        if landed.Err? then Err(landed.error)
        else Ok(Folded(landed.value, ViewDigest(h, view.value), |rows.value.rows|))
  }

  function LandImport(h: Hash, st: Storage, catalog: seq<FamilyIdentity>, k: Checkpoint, suffix: seq<Entry>,
                      folded: Folded): Imported {
    var m := k.metadata;
    var inserted := InsertFamilies(catalog, m.inventory.families);
    var receipt :=
        ImportReceipt(m.first, m.last, |suffix|, folded.viewDigest, folded.rows, CursorAfter(m, suffix).0,
                      CursorAfter(m, suffix).1);
    Imported(if inserted.result.Ok? then Ok(receipt) else Err(inserted.result.error),
             Restored(h, st, k, suffix, folded.tables), inserted.catalog)
  }

  /** One durable write, then the in-memory catalog. */
  function ApplyImport(h: Hash, st: Storage, catalog: seq<FamilyIdentity>, directory: Directory, k: Checkpoint,
                       suffix: seq<Entry>): Imported {
    var admitted := ImportAdmits(h, st, catalog, k.metadata);
    if admitted.Err? then Imported(Err(admitted.error), st, catalog)
    else
      var folded := FoldImport(h, st.tables, directory, k, suffix);
      if folded.Err? then Imported(Err(folded.error), st, catalog)
      else LandImport(h, st, catalog, k, suffix, folded.value)
  }

  // ---- The session ----

  datatype Import = Import(checkpoint: Option<Checkpoint>, suffix: seq<Entry>)

  function IngestCheckpoint(h: Hash, i: Import, k: Checkpoint): Result<Import> {
    if i.checkpoint.Some? then Err(ImportCheckpointAlreadyIngested)
    else
      var verified := Verify(h, k);
      if verified.Err? then Err(verified.error) else Ok(i.(checkpoint := Some(k)))
  }

  function CommitImport(h: Hash, st: Storage, catalog: seq<FamilyIdentity>, directory: Directory, i: Import): Imported {
    if i.checkpoint.None? then Imported(Err(ImportMissingCheckpoint), st, catalog)
    else ApplyImport(h, st, catalog, directory, i.checkpoint.value, i.suffix)
  }

  // ---- Restoring a consecutive suffix appends it ----

  lemma PutLater<T>(rows: seq<T>, at: T -> nat, row: T)
    requires rows == [] || at(rows[|rows| - 1]) < at(row)
    ensures Put(rows, at, row) == rows + [row]
  {
  }

  ghost predicate KeyOrdered<T>(rows: seq<T>, at: T -> nat) {
    forall i, j :: 0 <= i < j < |rows| ==> at(rows[i]) < at(rows[j])
  }

  /** Rows written at their keys stay in key order. */
  lemma {:induction false} PutStaysOrdered<T>(rows: seq<T>, at: T -> nat, row: T)
    requires KeyOrdered(rows, at)
    ensures KeyOrdered(Put(rows, at, row), at)
    ensures forall r :: r in Put(rows, at, row) ==> r == row || r in rows
  {
    if rows != [] {
      var last, init := rows[|rows| - 1], rows[..|rows| - 1];
      PutStaysOrdered(init, at, row);
      if at(row) < at(last) {
        var put := Put(init, at, row);
        forall i | 0 <= i < |put| ensures at(put[i]) < at(last) {
          assert put[i] in put;
        }
      }
    }
  }

  /** A row is found at its key once written, and every other key keeps its row. */
  lemma {:induction false} PutWrites<T>(rows: seq<T>, at: T -> nat, row: T, key: nat)
    requires KeyOrdered(rows, at)
    ensures RowAt(Put(rows, at, row), at, key) == if key == at(row) then Some(row) else RowAt(rows, at, key)
  {
    if rows != [] {
      var last, init, put := rows[|rows| - 1], rows[..|rows| - 1], Put(rows, at, row);
      if at(last) < at(row) {
        assert put[..|put| - 1] == rows;
      } else if at(last) == at(row) {
        assert put[..|put| - 1] == init;
      } else {
        assert put[..|put| - 1] == Put(init, at, row);
        PutWrites(init, at, row, key);
      }
    }
  }

  function Projections(entries: seq<Entry>): (r: seq<CommitEntry>)
    ensures |r| == |entries|
  {
    seq(|entries|, i requires 0 <= i < |entries| => Project(entries[i]))
  }

  ghost predicate Ascending(entries: seq<Entry>) {
    forall i :: 0 < i < |entries| ==> entries[i - 1].sequence < entries[i].sequence
  }

  lemma OutboxLast(entries: seq<Entry>)
    requires entries != []
    ensures |OutboxOf(entries)| > 0
            && OutboxOf(entries)[|OutboxOf(entries)| - 1].sequence == entries[|entries| - 1].sequence
  {
  }

  /** Both logs, the outbox and the counts after a suffix lands on empty logs. */
  function Suffixed(st: Storage, suffix: seq<Entry>): Storage {
    st.(versioned := suffix, commits := Projections(suffix), outbox := if Mirrored(st) then OutboxOf(suffix)
        else st.outbox,
        head := HeadAfter(suffix, st.head),
        versionedCount := if suffix == [] then st.versionedCount else |suffix|,
        commitCount := if suffix == [] then st.commitCount else |suffix|)
  }

  lemma RestoreOne(st: Storage, init: seq<Entry>, e: Entry)
    requires init == [] || init[|init| - 1].sequence < e.sequence
    ensures RestoreEntry(Suffixed(st, init), e, |init| + 1) == Suffixed(st, init + [e])
  {
    if init != [] { OutboxLast(init); }
    PutLater(init, EntryRowSequence, e);
    PutLater(Projections(init), CommitRowSequence, Project(e));
    assert Projections(init + [e]) == Projections(init) + [Project(e)];
    PutLater(OutboxOf(init), OutboxRowSequence, OutboxRow(e.sequence, e.digest));
    assert (init + [e])[..|init|] == init;
  }

  lemma {:induction false} RestoreMeaning(st: Storage, suffix: seq<Entry>)
    requires st.versioned == [] && st.commits == [] && st.outbox == [] && Ascending(suffix)
    ensures RestoreEntries(st, suffix) == Suffixed(st, suffix)
  {
    if suffix == [] {
      assert Projections([]) == [];
    } else {
      var n := |suffix| - 1;
      RestoreMeaning(st, suffix[..n]);
      RestoreOne(st, suffix[..n], suffix[n]);
      assert suffix == suffix[..n] + [suffix[n]];
    }
  }

  // ---- The catalog an import leaves ----

  ghost predicate DistinctTables(families: seq<FamilyIdentity>) {
    forall i, j :: 0 <= i < j < |families| ==> families[i].table != families[j].table
  }

  lemma RowsDistinct(rows: map<Name, FamilyIdentity>)
    requires forall n :: n in rows ==> rows[n].table == n
    ensures DistinctTables(CatalogRows(rows))
  {
    LexOrder();
    forall i, j | 0 <= i < j < |CatalogRows(rows)| ensures CatalogRows(rows)[i].table != CatalogRows(rows)[j].table {
      InOrderAscends(rows.Keys, Lex, i, j);
      assert InOrder(rows.Keys, Lex)[i] in rows && InOrder(rows.Keys, Lex)[j] in rows;
    }
  }

  lemma {:induction false} FindTableAbsent(families: seq<FamilyIdentity>, table: Name)
    requires forall id :: id in families ==> id.table != table
    ensures FindTable(families, table) == None
  {
    if families != [] {
      assert families[0] in families;
      FindTableAbsent(families[1..], table);
    }
  }

  lemma {:induction false} InsertsDistinct(catalog: seq<FamilyIdentity>, families: seq<FamilyIdentity>)
    requires DistinctTables(catalog + families)
    ensures InsertFamilies(catalog, families) == CatalogInsert(Ok(()), catalog + families)
    decreases |families|
  {
    if families == [] {
      assert catalog + families == catalog;
    } else {
      forall id | id in catalog ensures id.table != families[0].table {
        var i :| 0 <= i < |catalog| && catalog[i] == id;
        assert (catalog + families)[i] == id && (catalog + families)[|catalog|] == families[0];
      }
      FindTableAbsent(catalog, families[0].table);
      assert catalog + [families[0]] + families[1..] == catalog + families;
      InsertsDistinct(catalog + [families[0]], families[1..]);
    }
  }

  /** Families insert exactly when no table is named twice. */
  lemma {:induction false} InsertsVerdict(catalog: seq<FamilyIdentity>, families: seq<FamilyIdentity>)
    requires DistinctTables(catalog)
    ensures InsertFamilies(catalog, families).result.Ok? <==> DistinctTables(catalog + families)
    decreases |families|
  {
    if families == [] {
      assert catalog + families == catalog;
    } else {
      var id := families[0];
      assert catalog + [id] + families[1..] == catalog + families;
      FindTableNamesIt(catalog, id.table);
      if FindTable(catalog, id.table).Some? {
        var i :| 0 <= i < |catalog| && catalog[i] == FindTable(catalog, id.table).value;
        assert (catalog + families)[i].table == (catalog + families)[|catalog|].table;
      } else {
        FindTableFinds(catalog, id.table);
        InsertsVerdict(catalog + [id], families[1..]);
      }
    }
  }

  lemma {:induction false} FindTableFinds(families: seq<FamilyIdentity>, table: Name)
    requires FindTable(families, table).None?
    ensures forall id :: id in families ==> id.table != table
  {
    if families != [] { FindTableFinds(families[1..], table); }
  }

  lemma {:induction false} BindLists(families: seq<FamilyIdentity>, t: Name)
    requires DistinctTables(families)
    ensures FindTable(families, t) == Lookup(BindAll(map[], families), t)
  {
    if families != [] {
      var n := |families| - 1;
      var init, id := families[..n], families[n];
      assert families == init + [id];
      BindLists(init, t);
      FindTableAppend(init, id, t);
      if id.table == t { FindTableAbsent(init, t); }
    }
  }

  // ---- An import restores the source ----

  lemma {:induction false} StoredUnder(h: Hash, stored: map<Digest, Segment>, segments: seq<Segment>,
                                       references: seq<SegmentReference>)
    requires |segments| == |references| && VerifySegments(h, segments, references) == Ok(())
    ensures forall i :: 0 <= i < |segments| ==> SegmentDigest(h, segments[i]) == references[i].digest
  {
    if segments != [] { StoredUnder(h, stored, segments[..|segments| - 1], references[..|segments| - 1]); }
  }

  /** Segments loaded by content address cannot collide with one another. */
  lemma LoadedDistinguished(h: Hash, stored: map<Digest, Segment>, m: Metadata, segments: seq<Segment>)
    requires LoadSegments(stored, m.segments) == Ok(segments) && Verify(h, Checkpoint(m, segments)) == Ok(())
    ensures Distinguished(h, segments)
  {
    LoadAt(stored, m.segments);
    StoredUnder(h, stored, segments, m.segments);
  }

  lemma ReferencesLoadAlike(stored: map<Digest, Segment>, a: seq<SegmentReference>, b: seq<SegmentReference>)
    requires |a| == |b| && forall i :: 0 <= i < |a| ==> a[i].digest == b[i].digest
    ensures LoadSegments(stored, a).Ok? && LoadSegments(stored, b).Ok? ==>
              LoadSegments(stored, a) == LoadSegments(stored, b)
    ensures LoadSegments(stored, a).Ok? <==> LoadSegments(stored, b).Ok?
  {
    LoadAt(stored, a);
    LoadAt(stored, b);
    if LoadSegments(stored, a).Ok? {
      forall r | r in b ensures r.digest in stored {
        var i :| 0 <= i < |b| && b[i] == r;
        assert a[i] in a;
      }
    }
    if LoadSegments(stored, b).Ok? {
      forall r | r in a ensures r.digest in stored {
        var i :| 0 <= i < |a| && a[i] == r;
        assert b[i] in b;
      }
    }
  }

  /** An ingested checkpoint loads back from the restored store. */
  lemma RestoredLoads(h: Hash, st: Storage, k: Checkpoint)
    requires Verify(h, k) == Ok(()) && Distinguished(h, k.segments)
    requires st.latestCheckpoint == Some(k.metadata.sequence)
    requires k.metadata.sequence in st.checkpoints && st.checkpoints[k.metadata.sequence] == k.metadata
    requires st.segments == StoreSegments(h, map[], k.segments)
    ensures LatestCheckpoint(h, st) == Ok(Some(k))
  {
    SegmentsLoadBack(h, map[], k.segments);
    StoredUnder(h, map[], k.segments, k.metadata.segments);
    ReferencesLoadAlike(st.segments, References(h, k.segments), k.metadata.segments);
  }

  /** What every engine-written log and checkpoint carries: snapshots move with
      sequences, a checkpoint covers the log from its first entry on, and it names
      its store and its own inventory's hash. */
  ghost predicate Stamps(h: Hash, policy: Option<Policy>, m: Metadata) {
    && m.coveredSnapshot == m.last && m.first == 1 <= m.last
    && policy.Some? && m.storeName == policy.value.storeName
    && m.schemaHash == StoreSchemaHash(h, m.inventory.families)
    && DistinctTables(m.inventory.families)
  }

  ghost predicate Stamped(h: Hash, st: Storage) {
    && Snapshot(st) == Sequence(st)
    && (forall e :: e in st.versioned ==> e.snapshot == e.sequence)
    && (forall n :: n in st.checkpoints ==> Stamps(h, st.policy, st.checkpoints[n]))
  }

  /** The store's content and everything its next writes depend on. */
  ghost predicate SameCore(a: Storage, b: Storage) {
    && a.policy == b.policy && a.registrations == b.registrations && a.tables == b.tables
       && a.identified == b.identified
    && Sequence(a) == Sequence(b) && Snapshot(a) == Snapshot(b) && a.head == b.head
  }

  /** The checkpoint's inventory still is the source's. */
  ghost predicate InventoryCurrent(st: Storage, m: Metadata) {
    BindAll(map[], m.inventory.families) == st.registrations && CountAll(map[], m.inventory.counters) == st.identified
  }

  lemma ImportTables(h: Hash, w: World, src: Storage, k: Checkpoint, suffix: seq<Entry>)
    requires Homed(w, src.registrations) && FoldOk(h, w, src, Some(k)) && Complete(src)
    requires suffix == EntriesFrom(src.versioned, k.metadata.last + 1)
    ensures var folded := FoldImport(h, map[], w.identified, k, suffix);
            folded.Ok? && folded.value.tables == src.tables
            && folded.value.viewDigest == ViewDigest(h, ViewOver(h, src, Some(k)).value)
  {
    var v := ViewOver(h, src, Some(k)).value;
    RebuildIsExact(w, v, k.metadata.inventory.families, map[], src.registrations);
    var after := MaterializeAll(w.identified, map[], IntoRows(v, k.metadata.inventory.families).value.Ordered()).value;
    NothingOutside(w, src.tables, v, src.registrations);
    AgreeingIsRebuilt(w, v, src.tables, map[], after, src.registrations);
  }

  lemma NothingOutside(w: World, tables: Tables, v: View, registrations: map<Name, FamilyIdentity>)
    requires Homed(w, registrations) && SelfDescribing(v) && Agrees(w, tables, v.rows, registrations)
    ensures forall c :: c !in CoordsOf(w, v.touched) ==> c !in tables
  {
    AgreeingCoords(w, tables, v.rows, registrations);
  }

  lemma SuffixAscends(src: Storage, after: nat)
    requires Sequenced(src)
    ensures Ascending(EntriesFrom(src.versioned, after + 1))
    ensures forall e :: e in EntriesFrom(src.versioned, after + 1) ==> e in src.versioned
    ensures EntriesFrom(src.versioned, after + 1) == [] &&
            Sequence(src) - |src.versioned| <= after <= Sequence(src) ==>
              after == Sequence(src)
    ensures EntriesFrom(src.versioned, after + 1) != [] ==>
              EntriesFrom(src.versioned, after + 1)[|EntriesFrom(src.versioned, after + 1)| - 1].sequence ==
                    Sequence(src)
  {
    FromConsecutive(src.versioned, EntryRowSequence, after + 1, Sequence(src));
  }

  lemma CursorRestored(h: Hash, src: Storage, m: Metadata, suffix: seq<Entry>)
    requires Sequenced(src) && Stamped(h, src) && suffix == EntriesFrom(src.versioned, m.last + 1)
    requires Sequence(src) - |src.versioned| <= m.last <= Sequence(src) && m.coveredSnapshot == m.last
    ensures CursorAfter(m, suffix) == (Sequence(src), Snapshot(src))
  {
    SuffixAscends(src, m.last);
    if suffix != [] { assert suffix[|suffix| - 1] in src.versioned; }
  }

  /** The restored store, field by field. */
  function RestoredFresh(h: Hash, src: Storage, k: Checkpoint, suffix: seq<Entry>): Storage {
    Suffixed(EmptyStore(src.policy), suffix).(
      registrations := BindAll(map[], k.metadata.inventory.families),
      identified := CountAll(map[], k.metadata.inventory.counters),
      checkpoints := map[k.metadata.sequence := k.metadata],
      segments := StoreSegments(h, map[], k.segments),
      latestCheckpoint := Some(k.metadata.sequence),
      sequence := Some(Sequence(src)), snapshot := Some(Snapshot(src)),
      tables := src.tables)
  }

  lemma RestoredIs(h: Hash, src: Storage, k: Checkpoint, suffix: seq<Entry>)
    requires Ascending(suffix) && CursorAfter(k.metadata, suffix) == (Sequence(src), Snapshot(src))
    ensures Restored(h, EmptyStore(src.policy), k, suffix, src.tables) == RestoredFresh(h, src, k, suffix)
  {
    RestoreMeaning(EmptyStore(src.policy), suffix);
  }

  lemma ImportLands(h: Hash, w: World, src: Storage, k: Checkpoint, suffix: seq<Entry>)
    requires Homed(w, src.registrations) && Sequenced(src) && CoversOk(src, Some(k)) && FoldOk(h, w, src, Some(k))
    requires Stamped(h, src) && Stamps(h, src.policy, k.metadata)
    requires suffix == EntriesFrom(src.versioned, k.metadata.last + 1)
    ensures var out := ApplyImport(h, EmptyStore(src.policy), [], w.identified, k, suffix);
            && out.result.Ok? && out.catalog == k.metadata.inventory.families
            && out.storage == RestoredFresh(h, src, k, suffix)
  {
    ImportTables(h, w, src, k, suffix);
    LandsFresh(h, src, k, suffix, FoldImport(h, map[], w.identified, k, suffix).value);
    AdmitsFresh(h, src.policy, k.metadata);
  }

  lemma AdmitsFresh(h: Hash, policy: Option<Policy>, m: Metadata)
    requires Stamps(h, policy, m)
    ensures ImportAdmits(h, EmptyStore(policy), [], m) == Ok(())
  {
  }

  lemma LandsFresh(h: Hash, src: Storage, k: Checkpoint, suffix: seq<Entry>, folded: Folded)
    requires Sequenced(src) && CoversOk(src, Some(k)) && Stamped(h, src) && Stamps(h, src.policy, k.metadata)
    requires suffix == EntriesFrom(src.versioned, k.metadata.last + 1) && folded.tables == src.tables
    ensures var out := LandImport(h, EmptyStore(src.policy), [], k, suffix, folded);
            out.result.Ok? && out.catalog == k.metadata.inventory.families
                && out.storage == RestoredFresh(h, src, k, suffix)
  {
    SuffixAscends(src, k.metadata.last);
    CursorRestored(h, src, k.metadata, suffix);
    RestoredIs(h, src, k, suffix);
    assert [] + k.metadata.inventory.families == k.metadata.inventory.families;
    InsertsDistinct([], k.metadata.inventory.families);
  }

  lemma CoreRestored(h: Hash, w: World, src: Storage, k: Checkpoint, suffix: seq<Entry>)
    requires FoldOk(h, w, src, Some(k)) && suffix == EntriesFrom(src.versioned, k.metadata.last + 1)
    ensures SameCore(RestoredFresh(h, src, k, suffix), src) <==> suffix != [] && InventoryCurrent(src, k.metadata)
  {
  }

  lemma LatestIs(h: Hash, st: Storage, k: Checkpoint)
    requires LatestCheckpoint(h, st) == Ok(Some(k)) && CoversOk(st, Some(k))
    ensures k.metadata.sequence in st.checkpoints && st.checkpoints[k.metadata.sequence] == k.metadata
  {
  }

  /** An import restores the source's rows always, and everything its next writes
      depend on if and only if the suffix is not empty and the checkpoint's inventory
      is still the source's. */
  lemma ImportRestores(h: Hash, w: World, src: Storage, catalog: seq<FamilyIdentity>, k: Checkpoint)
    requires Inv(h, w, src, catalog) && Stamped(h, src) && LatestCheckpoint(h, src) == Ok(Some(k))
    ensures var suffix := EntriesFrom(src.versioned, k.metadata.last + 1);
            var out := ApplyImport(h, EmptyStore(src.policy), [], w.identified, k, suffix);
            && out.result.Ok? && out.catalog == k.metadata.inventory.families
            && out.storage.versioned == suffix && out.storage.tables == src.tables
            && (SameCore(out.storage, src) <==> suffix != [] && InventoryCurrent(src, k.metadata))
  {
    var suffix := EntriesFrom(src.versioned, k.metadata.last + 1);
    LatestIs(h, src, k);
    ImportLands(h, w, src, k, suffix);
    CoreRestored(h, w, src, k, suffix);
  }

  // ---- Life after an import ----

  lemma RestoredInv(h: Hash, w: World, src: Storage, catalog: seq<FamilyIdentity>, k: Checkpoint, suffix: seq<Entry>,
                    out: Imported)
    requires Inv(h, w, src, catalog) && Stamps(h, src.policy, k.metadata) && LatestCheckpoint(h, src) == Ok(Some(k))
    requires suffix == EntriesFrom(src.versioned, k.metadata.last + 1) && suffix != []
             && InventoryCurrent(src, k.metadata)
    requires out.storage == RestoredFresh(h, src, k, suffix) && out.catalog == k.metadata.inventory.families
    ensures Inv(h, w, out.storage, out.catalog)
  {
    var st, families := out.storage, out.catalog;
    LatestIs(h, src, k);
    forall t ensures FindTable(families, t) == Lookup(st.registrations, t) { BindLists(families, t); }
    LoadedDistinguished(h, src.segments, k.metadata, k.segments);
    RestoredLoads(h, st, k);
    RestoredSequenced(h, src, k, suffix);
    RestoredFolds(h, w, src, k, suffix);
  }

  lemma RestoredSequenced(h: Hash, src: Storage, k: Checkpoint, suffix: seq<Entry>)
    requires Sequenced(src) && CoversOk(src, Some(k)) && suffix == EntriesFrom(src.versioned, k.metadata.last + 1)
             && suffix != []
    ensures Sequenced(RestoredFresh(h, src, k, suffix)) && CoversOk(RestoredFresh(h, src, k, suffix), Some(k))
  {
    FromConsecutive(src.versioned, EntryRowSequence, k.metadata.last + 1, Sequence(src));
  }

  lemma RestoredFolds(h: Hash, w: World, src: Storage, k: Checkpoint, suffix: seq<Entry>)
    requires FoldOk(h, w, src, Some(k)) && Complete(src) && suffix == EntriesFrom(src.versioned, k.metadata.last + 1)
             && suffix != []
    requires InventoryCurrent(src, k.metadata)
    ensures FoldOk(h, w, RestoredFresh(h, src, k, suffix), Some(k)) && Linked(h, RestoredFresh(h, src, k, suffix))
  {
    var b := BaseOf(Some(k));
    FromTwice(src.versioned, EntryRowSequence, k.metadata.last + 1);
    FoldMeaning(h, ApplyCheckpointRows(EMPTY_VIEW, b.rows).value, suffix, b.head);
    ChainedStarts(h, suffix, b.head);
  }

  /** Stores with one core answer every call alike and mint the same entries, as
      long as their inventories answer and hash alike. */
  lemma SameCoreWritesAlike(h: Hash, a: Storage, b: Storage, listed: seq<FamilyIdentity>, catalog: seq<FamilyIdentity>,
                            call: Call)
    requires SameCore(a, b) && a.policy.Some? && forall t :: FindTable(listed, t) == FindTable(catalog, t)
    requires StoreSchemaHash(h, listed) == StoreSchemaHash(h, catalog)
    ensures var x, y := Direct(h, a, listed, call), Direct(h, b, catalog, call);
            && x.result == y.result && x.deltas == y.deltas && SameCore(x.storage, y.storage)
               && x.storage.policy == a.policy
            && (x.result.Ok? ==>
                exists e :: x.storage.versioned == a.versioned + [e] && y.storage.versioned == b.versioned + [e])
  {
    PlansAlike(a.tables, a.identified, listed, catalog, call);
    DirectIs(h, a, listed, call);
    DirectIs(h, b, catalog, call);
    var plan := Plan(a.tables, a.identified, listed, call);
    if plan.Ok? { CommitsAlike(h, a, b, listed, catalog, call, plan.value); }
  }

  lemma CommitsAlike(h: Hash, a: Storage, b: Storage, listed: seq<FamilyIdentity>, catalog: seq<FamilyIdentity>,
                     call: Call, ps: seq<Prepared>)
    requires SameCore(a, b) && a.policy.Some? && StoreSchemaHash(h, listed) == StoreSchemaHash(h, catalog)
    requires forall i :: 0 <= i < |ps| ==> ps[i].op.key.Some?
    ensures var x, y, e :=
            CommitPlan(h, a, listed, call, ps), CommitPlan(h, b, catalog, call, ps), NextEntry(h, a, listed, OpsOf(ps));
            && x.result == y.result && x.deltas == y.deltas && SameCore(x.storage, y.storage)
            && x.storage.versioned == a.versioned + [e] && y.storage.versioned == b.versioned + [e]
  {
    CommitPlanMints(h, a, listed, call, ps);
    CommitPlanMints(h, b, catalog, call, ps);
  }

  lemma {:induction false} PreparesAlike(tables: Tables, a: seq<FamilyIdentity>, b: seq<FamilyIdentity>, ws: seq<Write>)
    requires forall t :: FindTable(a, t) == FindTable(b, t)
    ensures Prepare(tables, a, ws) == Prepare(tables, b, ws)
  {
    if ws != [] { PreparesAlike(tables, a, b, ws[..|ws| - 1]); }
  }

  lemma PlansAlike(tables: Tables, identified: map<Name, nat>, a: seq<FamilyIdentity>, b: seq<FamilyIdentity>,
                   call: Call)
    requires forall t :: FindTable(a, t) == FindTable(b, t)
    ensures Plan(tables, identified, a, call) == Plan(tables, identified, b, call)
  {
    if call.Keyed? { PreparesAlike(tables, a, b, [call.write]); }
    if call.Batch? { PreparesAlike(tables, a, b, InTable(call.batchTable, call.operations)); }
  }

  // ---- Inventories that list the same rows hash alike ----

  lemma {:induction false} DistinctCount(families: seq<FamilyIdentity>, id: FamilyIdentity)
    requires DistinctTables(families)
    ensures multiset(families)[id] == if FindTable(families, id.table) == Some(id) then 1 else 0
  {
    if families != [] {
      assert families == [families[0]] + families[1..];
      DistinctCount(families[1..], id);
      if families[0].table == id.table { FindTableAbsent(families[1..], id.table); }
    }
  }

  lemma Without<T>(s: seq<T>, j: nat)
    requires j < |s|
    ensures multiset(s) == multiset(s[..j] + s[j + 1..]) + multiset{s[j]}
    ensures multiset(s[..j] + s[j + 1..]) == multiset(s) - multiset{s[j]}
  {
    assert s == s[..j] + [s[j]] + s[j + 1..];
  }

  lemma {:induction false} KeysPermute(a: seq<FamilyIdentity>, b: seq<FamilyIdentity>)
    requires multiset(a) == multiset(b)
    ensures multiset(FamilyKeys(a)) == multiset(FamilyKeys(b))
    decreases |a|
  {
    assert |a| == |multiset(a)| == |multiset(b)| == |b|;
    if a != [] {
      var j := Matching(a, b);
      KeysPermute(a[..0] + a[1..], b[..j] + b[j + 1..]);
      KeysWithout(a, 0);
      KeysWithout(b, j);
    }
  }

  /** The first member of one list, found and removed in a permutation of it. */
  lemma Matching<T>(a: seq<T>, b: seq<T>) returns (j: nat)
    requires multiset(a) == multiset(b) && a != []
    ensures j < |b| && b[j] == a[0] && multiset(a[..0] + a[1..]) == multiset(b[..j] + b[j + 1..])
  {
    assert a[0] in multiset(b);
    j :| 0 <= j < |b| && b[j] == a[0];
    Without(a, 0);
    Without(b, j);
  }

  lemma KeysWithout(s: seq<FamilyIdentity>, j: nat)
    requires j < |s|
    ensures multiset(FamilyKeys(s)) == multiset(FamilyKeys(s[..j] + s[j + 1..])) + multiset{s[j].Key()}
  {
    Without(FamilyKeys(s), j);
    assert FamilyKeys(s)[..j] + FamilyKeys(s)[j + 1..] == FamilyKeys(s[..j] + s[j + 1..]);
  }

  /** The store schema hash does not depend on the order of the inventory. */
  lemma SchemaHashIgnoresOrder(h: Hash, a: seq<FamilyIdentity>, b: seq<FamilyIdentity>,
                               registrations: map<Name, FamilyIdentity>)
    requires DistinctTables(a) && DistinctTables(b) && Lists(a, registrations) && Lists(b, registrations)
    ensures StoreSchemaHash(h, a) == StoreSchemaHash(h, b)
    ensures forall t :: FindTable(a, t) == FindTable(b, t)
  {
    forall t ensures FindTable(a, t) == FindTable(b, t) {
      assert FindTable(a, t) == Lookup(registrations, t);
    }
    forall id ensures multiset(a)[id] == multiset(b)[id] {
      DistinctCount(a, id);
      DistinctCount(b, id);
    }
    assert multiset(a) == multiset(b);
    KeysPermute(a, b);
    SortSorted(FamilyKeys(a));
    SortSorted(FamilyKeys(b));
    SortedUnique(Sort(FamilyKeys(a)), Sort(FamilyKeys(b)));
  }

  lemma GroupsAlike(h: Hash, a: Storage, b: Storage, listed: seq<FamilyIdentity>, catalog: seq<FamilyIdentity>,
                    ws: seq<Write>)
    requires SameCore(a, b) && a.policy.Some? && forall t :: FindTable(listed, t) == FindTable(catalog, t)
    requires StoreSchemaHash(h, listed) == StoreSchemaHash(h, catalog)
    ensures var x, y := CommitAtomic(h, a, listed, ws), CommitAtomic(h, b, catalog, ws);
            && x.result == y.result && x.deltas == y.deltas && SameCore(x.storage, y.storage)
               && x.storage.policy == a.policy
            && Added(a, x.storage) == Added(b, y.storage)
  {
    PreparesAlike(a.tables, listed, catalog, ws);
    AtomicIs(h, a, listed, ws);
    AtomicIs(h, b, catalog, ws);
    var plan := Prepare(a.tables, listed, ws);
    if ws != [] && plan.Ok? { PreparedAlike(h, a, b, listed, catalog, plan.value); }
  }

  lemma PreparedAlike(h: Hash, a: Storage, b: Storage, listed: seq<FamilyIdentity>, catalog: seq<FamilyIdentity>,
                      ps: seq<Prepared>)
    requires SameCore(a, b) && a.policy.Some? && StoreSchemaHash(h, listed) == StoreSchemaHash(h, catalog)
    requires forall i :: 0 <= i < |ps| ==> ps[i].op.key.Some?
    ensures var x, y := CommitPrepared(h, a, listed, ps), CommitPrepared(h, b, catalog, ps);
            && x.result == y.result && x.deltas == y.deltas && SameCore(x.storage, y.storage)
               && x.storage.policy == a.policy
            && Added(a, x.storage) == Added(b, y.storage)
  {
    LandAlike(h, a, b, listed, catalog, OpsOf(ps), TextsOnTables(a.tables, OpsOf(ps)));
  }

  lemma LandAlike(h: Hash, a: Storage, b: Storage, listed: seq<FamilyIdentity>, catalog: seq<FamilyIdentity>,
                  ops: seq<LogOperation>, tables: Tables)
    requires SameCore(a, b) && a.policy.Some? && StoreSchemaHash(h, listed) == StoreSchemaHash(h, catalog)
    ensures var x, y, e :=
            Commit(h, a, listed, ops, tables, a.identified), Commit(h, b, catalog, ops, tables, b.identified),
                NextEntry(h, a, listed, ops);
            && SameCore(x, y) && x.policy == a.policy && Added(a, x) == [e] && Added(b, y) == [e]
  {
  }

  /** A request to a store: one call, or a heterogeneous group. */
  datatype Request = OneCall(call: Call) | OneGroup(writes: seq<Write>)

  function CommitRequest(h: Hash, st: Storage, catalog: seq<FamilyIdentity>, r: Request): Done {
    match r
    case OneCall(call) => Direct(h, st, catalog, call)
    case OneGroup(writes) => CommitAtomic(h, st, catalog, writes)
  }

  /** The store after a request and the maintenance that follows it. */
  function Kept(h: Hash, done: Done, catalog: seq<FamilyIdentity>, r: Request): Storage {
    if r.OneGroup? || IsDomainCall(r.call) then Maintained(h, done, catalog, Sequence(done.storage)).storage
    else done.storage
  }

  /** What a run of requests committed: outcomes, deltas and entries, and the store
      its commits and their maintenance left. */
  datatype Served = Served(results: seq<Result<Receipt>>, deltas: seq<Delta>, minted: seq<Entry>, storage: Storage)

  function Serve(h: Hash, st: Storage, catalog: seq<FamilyIdentity>, requests: seq<Request>): Served {
    if requests == [] then Served([], [], [], st)
    else
      var before, r := Serve(h, st, catalog, requests[..|requests| - 1]), requests[|requests| - 1];
      var done := CommitRequest(h, before.storage, catalog, r);
      Served(before.results + [done.result], before.deltas + done.deltas,
             before.minted + Added(before.storage, done.storage),
             Kept(h, done, catalog, r))
  }

  lemma KeptCore(h: Hash, done: Done, catalog: seq<FamilyIdentity>, r: Request)
    ensures OnlyHistory(done.storage, Kept(h, done, catalog, r))
  {
    MaintainMovesHistory(h, done.storage, catalog, Sequence(done.storage));
  }

  lemma RequestsAlike(h: Hash, a: Storage, b: Storage, listed: seq<FamilyIdentity>, catalog: seq<FamilyIdentity>,
                      r: Request)
    requires SameCore(a, b) && a.policy.Some? && forall t :: FindTable(listed, t) == FindTable(catalog, t)
    requires StoreSchemaHash(h, listed) == StoreSchemaHash(h, catalog)
    ensures var x, y := CommitRequest(h, a, listed, r), CommitRequest(h, b, catalog, r);
            && x.result == y.result && x.deltas == y.deltas && Added(a, x.storage) == Added(b, y.storage)
            && SameCore(Kept(h, x, listed, r), Kept(h, y, catalog, r)) && Kept(h, x, listed, r).policy == a.policy
  {
    var x, y := CommitRequest(h, a, listed, r), CommitRequest(h, b, catalog, r);
    KeptCore(h, x, listed, r);
    KeptCore(h, y, catalog, r);
    match r {
      case OneCall(call) =>
        SameCoreWritesAlike(h, a, b, listed, catalog, call);
        DirectIs(h, a, listed, call);
        DirectIs(h, b, catalog, call);
      case OneGroup(writes) => GroupsAlike(h, a, b, listed, catalog, writes);
    }
  }

  /** Any later requests, maintained or not, commit, deliver and mint alike. */
  lemma {:induction false} SameCoreServesAlike(h: Hash, a: Storage, b: Storage, listed: seq<FamilyIdentity>,
                                               catalog: seq<FamilyIdentity>, requests: seq<Request>)
    requires SameCore(a, b) && a.policy.Some? && forall t :: FindTable(listed, t) == FindTable(catalog, t)
    requires StoreSchemaHash(h, listed) == StoreSchemaHash(h, catalog)
    ensures ServesAlike(h, a, listed, b, catalog, requests) && Serve(h, a, listed, requests).storage.policy == a.policy
  {
    if requests != [] {
      var init := requests[..|requests| - 1];
      SameCoreServesAlike(h, a, b, listed, catalog, init);
      RequestsAlike(h, Serve(h, a, listed, init).storage, Serve(h, b, catalog, init).storage, listed, catalog,
                    requests[|requests| - 1]);
    }
  }

  ghost predicate ServesAlike(h: Hash, a: Storage, listed: seq<FamilyIdentity>, b: Storage,
                              catalog: seq<FamilyIdentity>, requests: seq<Request>) {
    var x, y := Serve(h, a, listed, requests), Serve(h, b, catalog, requests);
    x.results == y.results && x.deltas == y.deltas && x.minted == y.minted && SameCore(x.storage, y.storage)
  }

  lemma SourceOk(h: Hash, w: World, src: Storage, catalog: seq<FamilyIdentity>, k: Checkpoint)
    requires Inv(h, w, src, catalog) && Stamped(h, src) && LatestCheckpoint(h, src) == Ok(Some(k))
    ensures Homed(w, src.registrations) && Lists(catalog, src.registrations) && Sequenced(src) && CoversOk(src, Some(k))
    ensures FoldOk(h, w, src, Some(k)) && src.policy.Some? && Stamps(h, src.policy, k.metadata)
  {
    LatestIs(h, src, k);
  }

  lemma ImportedInv(h: Hash, w: World, src: Storage, catalog: seq<FamilyIdentity>, k: Checkpoint, suffix: seq<Entry>,
                    out: Imported)
    requires Inv(h, w, src, catalog) && Stamped(h, src) && LatestCheckpoint(h, src) == Ok(Some(k))
    requires suffix == EntriesFrom(src.versioned, k.metadata.last + 1) && suffix != []
             && InventoryCurrent(src, k.metadata)
    requires out == ApplyImport(h, EmptyStore(src.policy), [], w.identified, k, suffix)
    ensures Inv(h, w, out.storage, out.catalog)
  {
    SourceOk(h, w, src, catalog, k);
    ImportLands(h, w, src, k, suffix);
    RestoredInv(h, w, src, catalog, k, suffix, out);
  }

  lemma ImportedServes(h: Hash, w: World, src: Storage, catalog: seq<FamilyIdentity>, k: Checkpoint,
                       suffix: seq<Entry>, out: Imported, requests: seq<Request>)
    requires Inv(h, w, src, catalog) && Stamped(h, src) && LatestCheckpoint(h, src) == Ok(Some(k))
             && DistinctTables(catalog)
    requires suffix == EntriesFrom(src.versioned, k.metadata.last + 1) && suffix != []
             && InventoryCurrent(src, k.metadata)
    requires out == ApplyImport(h, EmptyStore(src.policy), [], w.identified, k, suffix)
    ensures ServesAlike(h, out.storage, out.catalog, src, catalog, requests)
  {
    SourceOk(h, w, src, catalog, k);
    ImportLands(h, w, src, k, suffix);
    RestoredServes(h, w, src, catalog, k, suffix, out, requests);
  }

  /** A full restore: the imported store satisfies the invariant, and any later
      requests commit, deliver and mint exactly what they do on the source, whatever
      history maintenance each store runs in between. */
  lemma ImportedStoreContinues(h: Hash, w: World, src: Storage, catalog: seq<FamilyIdentity>, k: Checkpoint,
                               suffix: seq<Entry>, requests: seq<Request>)
    requires Inv(h, w, src, catalog) && Stamped(h, src) && LatestCheckpoint(h, src) == Ok(Some(k))
             && DistinctTables(catalog)
    requires suffix == EntriesFrom(src.versioned, k.metadata.last + 1) && suffix != []
             && InventoryCurrent(src, k.metadata)
    ensures var out := ApplyImport(h, EmptyStore(src.policy), [], w.identified, k, suffix);
            Inv(h, w, out.storage, out.catalog) && ServesAlike(h, out.storage, out.catalog, src, catalog, requests)
  {
    var out := ApplyImport(h, EmptyStore(src.policy), [], w.identified, k, suffix);
    ImportedInv(h, w, src, catalog, k, suffix, out);
    ImportedServes(h, w, src, catalog, k, suffix, out, requests);
  }

  lemma RestoredServes(h: Hash, w: World, src: Storage, catalog: seq<FamilyIdentity>, k: Checkpoint,
                       suffix: seq<Entry>, out: Imported, requests: seq<Request>)
    requires FoldOk(h, w, src, Some(k)) && src.policy.Some? && suffix != [] && InventoryCurrent(src, k.metadata)
    requires suffix == EntriesFrom(src.versioned, k.metadata.last + 1)
    requires Lists(catalog, src.registrations) && DistinctTables(catalog) && DistinctTables(out.catalog)
    requires out.storage == RestoredFresh(h, src, k, suffix) && out.catalog == k.metadata.inventory.families
    ensures ServesAlike(h, out.storage, out.catalog, src, catalog, requests)
  {
    forall t ensures FindTable(out.catalog, t) == Lookup(src.registrations, t) { BindLists(out.catalog, t); }
    SchemaHashIgnoresOrder(h, out.catalog, catalog, src.registrations);
    RestoredCore(h, w, src, k, suffix, out.storage);
    SameCoreServesAlike(h, out.storage, src, out.catalog, catalog, requests);
  }

  lemma RestoredCore(h: Hash, w: World, src: Storage, k: Checkpoint, suffix: seq<Entry>, restored: Storage)
    requires FoldOk(h, w, src, Some(k)) && src.policy.Some? && suffix != [] && InventoryCurrent(src, k.metadata)
    requires suffix == EntriesFrom(src.versioned, k.metadata.last + 1) && restored == RestoredFresh(h, src, k, suffix)
    ensures SameCore(restored, src) && restored.policy == src.policy
  {
    CoreRestored(h, w, src, k, suffix);
  }

  lemma ViewFrom(h: Hash, st: Storage, k: Checkpoint)
    requires LatestCheckpoint(h, st) == Ok(Some(k))
    ensures CurrentView(h, st) ==
              Fold(h, k.Rows(), EntriesFrom(st.versioned, k.metadata.last + 1), Some(k.metadata.coveredDigest))
  {
  }

  /** An entry that names no predecessor does not continue a covered head. */
  lemma ForkedFold(h: Hash, rows: seq<ViewRow>, e: Entry, head: Digest, start: nat)
    requires ApplyCheckpointRows(EMPTY_VIEW, rows).Ok? && e.previous == None && e.sequence >= start
    ensures EntriesFrom([e], start) == [e]
    ensures Fold(h, rows, [e], Some(head)) == Err(VersionedChainBroken(e.sequence))
  {
    OnlyEntry(e, start);
    assert FoldEntries(h, ApplyCheckpointRows(EMPTY_VIEW, rows).value, [e][..0], Some(head)).Ok?;
  }

  lemma OnlyEntry(e: Entry, start: nat)
    requires e.sequence >= start
    ensures EntriesFrom([e], start) == [e]
  {
    assert [] + [e] == [e];
    FromAppend([], e, EntryRowSequence, start);
  }

  lemma ForkedView(h: Hash, st: Storage, k: Checkpoint, e: Entry)
    requires LatestCheckpoint(h, st) == Ok(Some(k)) && Verify(h, k) == Ok(())
    requires st.versioned == [e] && e.previous == None && e.sequence == k.metadata.last + 1
    ensures CurrentView(h, st) == Err(VersionedChainBroken(e.sequence))
  {
    ViewFrom(h, st, k);
    ForkedFold(h, k.Rows(), e, k.metadata.coveredDigest, k.metadata.last + 1);
  }

  lemma CallForks(h: Hash, st: Storage, catalog: seq<FamilyIdentity>, k: Checkpoint, call: Call, ps: seq<Prepared>)
    requires st.policy.Some? && st.head.None? && st.versioned == [] && LatestCheckpoint(h, st) == Ok(Some(k))
    requires k.metadata.last == Sequence(st) && Verify(h, k) == Ok(()) && forall i :: 0 <= i < |ps| ==>
               ps[i].op.key.Some?
    ensures CurrentView(h, CommitPlan(h, st, catalog, call, ps).storage) == Err(VersionedChainBroken(Sequence(st) + 1))
  {
    CommitPlanMints(h, st, catalog, call, ps);
    ForkedView(h, CommitPlan(h, st, catalog, call, ps).storage, k, NextEntry(h, st, catalog, OpsOf(ps)));
  }

  lemma RestoredBare(h: Hash, src: Storage, k: Checkpoint)
    requires Sequenced(src) && CoversOk(src, Some(k)) && LatestCheckpoint(h, src) == Ok(Some(k))
    requires EntriesFrom(src.versioned, k.metadata.last + 1) == []
    ensures k.metadata.last == Sequence(src) && Verify(h, k) == Ok(())
    ensures LatestCheckpoint(h, RestoredFresh(h, src, k, [])) == Ok(Some(k))
            && CurrentView(h, RestoredFresh(h, src, k, [])).Ok?
  {
    SuffixAscends(src, k.metadata.last);
    LatestIs(h, src, k);
    LoadedDistinguished(h, src.segments, k.metadata, k.segments);
    RestoredLoads(h, RestoredFresh(h, src, k, []), k);
    ViewFrom(h, RestoredFresh(h, src, k, []), k);
  }

  /** Any accepted call breaks the chain. */
  ghost predicate NextCallForks(h: Hash, st: Storage, catalog: seq<FamilyIdentity>, call: Call) {
    var next := Direct(h, st, catalog, call);
    next.result.Ok? ==> CurrentView(h, next.storage) == Err(VersionedChainBroken(Sequence(st) + 1))
  }

  /** After an import with an empty suffix the store holds the source's rows but no
      chain head: its next entry names no predecessor, and from then on the log no
      longer folds. */
  lemma EmptySuffixBreaksChain(h: Hash, w: World, src: Storage, catalog: seq<FamilyIdentity>, k: Checkpoint, call: Call)
    requires Inv(h, w, src, catalog) && Stamped(h, src) && LatestCheckpoint(h, src) == Ok(Some(k))
    requires EntriesFrom(src.versioned, k.metadata.last + 1) == []  // the checkpoint covers the whole log
    ensures var out := ApplyImport(h, EmptyStore(src.policy), [], w.identified, k, []);
            && out.result.Ok? && CurrentView(h, out.storage).Ok?
            && NextCallForks(h, out.storage, out.catalog, call)
  {
    LatestIs(h, src, k);
    ImportForks(h, w, src, k, call);
  }

  lemma ImportForks(h: Hash, w: World, src: Storage, k: Checkpoint, call: Call)
    requires Homed(w, src.registrations) && Sequenced(src) && CoversOk(src, Some(k)) && FoldOk(h, w, src, Some(k))
    requires Stamped(h, src) && Stamps(h, src.policy, k.metadata) && LatestCheckpoint(h, src) == Ok(Some(k))
    requires EntriesFrom(src.versioned, k.metadata.last + 1) == []
    ensures var out := ApplyImport(h, EmptyStore(src.policy), [], w.identified, k, []);
            && out.result.Ok? && CurrentView(h, out.storage).Ok?
            && NextCallForks(h, out.storage, out.catalog, call)
  {
    ImportLands(h, w, src, k, []);
    RestoredBare(h, src, k);
    var st := RestoredFresh(h, src, k, []);
    assert st.head.None? && st.versioned == [] && st.policy == src.policy && Sequence(st) == Sequence(src);
    CallBreaks(h, st, k.metadata.inventory.families, k, call);
  }

  lemma CallBreaks(h: Hash, st: Storage, catalog: seq<FamilyIdentity>, k: Checkpoint, call: Call)
    requires st.policy.Some? && st.head.None? && st.versioned == [] && LatestCheckpoint(h, st) == Ok(Some(k))
    requires k.metadata.last == Sequence(st) && Verify(h, k) == Ok(())
    ensures NextCallForks(h, st, catalog, call)
  {
    DirectIs(h, st, catalog, call);
    var plan := Plan(st.tables, st.identified, catalog, call);
    if plan.Ok? { CallForks(h, st, catalog, k, call, plan.value); }
  }
}
