// Checkpointing and history compaction: a prefix of the log replaced by its fold.
module Histories {
  import opened ByteStrings
  import opened Errors
  import opened Versioning
  import opened CanonicalViews
  import opened Checkpoints
  import opened Catalogs
  import opened Stores
  import opened Invariants

  // ---- Identified counters in an inventory ----

  /** ":next_record_identifier" */
  const COUNTER_SUFFIX: Bytes :=
    [58, 110, 101, 120, 116, 95, 114, 101, 99, 111, 114, 100, 95, 105, 100, 101, 110, 116, 105, 102, 105, 101, 114]

  /** Counter rows are keyed by table name and suffix, and listed in that order. */
  predicate CounterLeq(a: Name, b: Name) { Lex(a + COUNTER_SUFFIX, b + COUNTER_SUFFIX) }

  lemma CounterOrder()
    ensures TotalOrder(CounterLeq)
  {
    forall a, b ensures CounterLeq(a, b) || CounterLeq(b, a) {
      LexTotal(a + COUNTER_SUFFIX, b + COUNTER_SUFFIX);
    }
    forall a, b | CounterLeq(a, b) && CounterLeq(b, a) ensures a == b {
      LexAntisymmetric(a + COUNTER_SUFFIX, b + COUNTER_SUFFIX);
      Cancel(a, COUNTER_SUFFIX, b, COUNTER_SUFFIX);
    }
    forall a, b, c | CounterLeq(a, b) && CounterLeq(b, c) ensures CounterLeq(a, c) {
      LexTransitive(a + COUNTER_SUFFIX, b + COUNTER_SUFFIX, c + COUNTER_SUFFIX);
    }
  }

  function CountersAt(identified: map<Name, nat>, tables: seq<Name>): seq<IdentifiedCounter>
    requires forall t :: t in tables ==> t in identified
  {
    seq(|tables|, i requires 0 <= i < |tables| => IdentifiedCounter(tables[i], identified[tables[i]]))
  }

  function CounterInventory(identified: map<Name, nat>): seq<IdentifiedCounter> {
    CounterOrder();
    CountersAt(identified, InOrder(identified.Keys, CounterLeq))
  }

  // ---- Writing a checkpoint ----

  function StoreSegments(h: Hash, stored: map<Digest, Segment>, segments: seq<Segment>): map<Digest, Segment> {
    if segments == [] then stored
    else
      var n := |segments| - 1;
      StoreSegments(h, stored, segments[..n])[SegmentDigest(h, segments[n]) := segments[n]]
  }

  function CutMetadata(h: Hash, st: Storage, catalog: seq<FamilyIdentity>, previous: Option<Checkpoint>,
                       entries: seq<Entry>, v: View, segments: seq<Segment>): Metadata
    requires st.policy.Some? && entries != []
  {
    var last := entries[|entries| - 1];
    SealMetadata(h, Metadata(
      if previous.Some? then previous.value.metadata.sequence + 1 else 1,
      st.policy.value.storeName,
      StoreSchemaHash(h, catalog),
      Inventory(catalog, CounterInventory(st.identified)),
      if previous.Some? then previous.value.metadata.first else entries[0].sequence,
      last.sequence,
      last.snapshot,
      last.digest,
      ViewDigest(h, v),
      if previous.Some? then Some(previous.value.metadata.digest) else None,
      References(h, segments),
      ZeroDigest()))
  }

  function PutCheckpoint(h: Hash, st: Storage, c: Checkpoint): Storage {
    st.(checkpoints := st.checkpoints[c.metadata.sequence := c.metadata],
        segments := StoreSegments(h, st.segments, c.segments),
        latestCheckpoint := Some(c.metadata.sequence))
  }

  /** The checkpoint the store would write now. */
  function CutCheckpoint(h: Hash, st: Storage, catalog: seq<FamilyIdentity>): Result<Checkpoint> {
    if st.policy.None? then Err(VersioningNotEnabled)
    else if !Complete(st) then Err(VersionedLogIncomplete(st.commitCount, st.versionedCount))
    else
      var previous := LatestCheckpoint(h, st);
      if previous.Err? then Err(previous.error) else CutOver(h, st, catalog, previous.value)
  }

  function CutOver(h: Hash, st: Storage, catalog: seq<FamilyIdentity>, previous: Option<Checkpoint>): Result<Checkpoint>
    requires st.policy.Some?
  {
    var b := BaseOf(previous);
    var entries := EntriesFrom(st.versioned, b.after + 1);
    if entries == [] then Err(CheckpointNothingToCover)
    else
      var folded := FoldRows(h, b.rows, entries, b.head, catalog);
      if folded.Err? then Err(folded.error)
      else
        var segments := Chunk(folded.value.rows.rows);
        Ok(Checkpoint(CutMetadata(h, st, catalog, previous, entries, folded.value.view, segments), segments))
  }

  datatype FoldedRows = FoldedRows(view: View, rows: MaterializeRows)

  /** Fold a log and list its rows. */
  function FoldRows(h: Hash, rows: seq<ViewRow>, entries: seq<Entry>, head: Option<Digest>,
                    inventory: seq<FamilyIdentity>): Result<FoldedRows> {
    var view := Fold(h, rows, entries, head);
    if view.Err? then Err(view.error)
    else
      var listed := IntoRows(view.value, inventory);
      if listed.Err? then Err(listed.error) else Ok(FoldedRows(view.value, listed.value))
  }

  function WriteCheckpoint(h: Hash, st: Storage, catalog: seq<FamilyIdentity>): Result<Storage> {
    var c := CutCheckpoint(h, st, catalog);
    if c.Err? then Err(c.error) else Ok(PutCheckpoint(h, st, c.value))
  }

  // ---- Loading what was stored ----

  /** No two different segments share a digest. */
  ghost predicate Distinguished(h: Hash, segments: seq<Segment>) {
    forall i, j :: 0 <= i < |segments| && 0 <= j < |segments|
                   && SegmentDigest(h, segments[i]) == SegmentDigest(h, segments[j])
      ==> segments[i] == segments[j]
  }

  lemma {:induction false} LoadAt(segments: map<Digest, Segment>, references: seq<SegmentReference>)
    ensures LoadSegments(segments, references).Ok? <==> forall r :: r in references ==> r.digest in segments
    ensures LoadSegments(segments, references).Ok? ==>
              var loaded := LoadSegments(segments, references).value;
              |loaded| == |references| && forall i :: 0 <= i < |loaded| ==> loaded[i] == segments[references[i].digest]
  {
    if references != [] {
      var n := |references| - 1;
      LoadAt(segments, references[..n]);
      assert references == references[..n] + [references[n]];
    }
  }

  lemma {:induction false} StoredAt(h: Hash, stored: map<Digest, Segment>, segments: seq<Segment>, i: nat)
    requires i < |segments|
    ensures var m, d := StoreSegments(h, stored, segments), SegmentDigest(h, segments[i]);
            d in m && exists j :: i <= j < |segments| && m[d] == segments[j] && SegmentDigest(h, segments[j]) == d
  {
    var n := |segments| - 1;
    var d := SegmentDigest(h, segments[i]);
    if SegmentDigest(h, segments[n]) == d {
      assert StoreSegments(h, stored, segments)[d] == segments[n];
    } else {
      StoredAt(h, stored, segments[..n], i);
      var j :| i <= j < n && StoreSegments(h, stored, segments[..n])[d] == segments[..n][j]
          && SegmentDigest(h, segments[..n][j]) == d;
      assert StoreSegments(h, stored, segments)[d] == segments[j];
    }
  }

  /** Stored segments load back unchanged exactly when the hash distinguishes them. */
  lemma SegmentsLoadBack(h: Hash, stored: map<Digest, Segment>, segments: seq<Segment>)
    ensures LoadSegments(StoreSegments(h, stored, segments), References(h, segments)).Ok?
    ensures LoadSegments(StoreSegments(h, stored, segments), References(h, segments)) == Ok(segments)
            <==> Distinguished(h, segments)
  {
    var m, refs := StoreSegments(h, stored, segments), References(h, segments);
    forall r | r in refs ensures r.digest in m {
      var i :| 0 <= i < |refs| && refs[i] == r;
      StoredAt(h, stored, segments, i);
    }
    LoadAt(m, refs);
    var loaded := LoadSegments(m, refs).value;
    if Distinguished(h, segments) {
      forall i | 0 <= i < |segments| ensures loaded[i] == segments[i] { StoredAt(h, stored, segments, i); }
    }
    if loaded == segments {
      forall i, j | 0 <= i < |segments| && 0 <= j < |segments|
                    && SegmentDigest(h, segments[i]) == SegmentDigest(h, segments[j])
        ensures segments[i] == segments[j]
      {
        assert loaded[i] == m[refs[i].digest] && loaded[j] == m[refs[j].digest];
      }
    }
  }

  // ---- A checkpoint preserves the invariant ----

  /** Rows of this world fold into a view of this world. */
  lemma {:induction false} RowsViewOk(w: World, rows: seq<ViewRow>)
    requires forall row :: row in rows ==> row.payload.Record? && row.family.table == w.Home(row.family.Key())
                                           && row.key.Identifier? == (row.family.table in w.identified)
    ensures ApplyCheckpointRows(EMPTY_VIEW, rows).Ok? && ViewOk(w, ApplyCheckpointRows(EMPTY_VIEW, rows).value)
  {
    if rows != [] {
      assert rows[|rows| - 1] in rows;
      RowsViewOk(w, rows[..|rows| - 1]);
    }
  }

  /** The retained suffix ends where the log ends. */
  lemma SuffixReachesCursor(st: Storage, after: nat)
    requires Sequenced(st)
    ensures EntriesFrom(st.versioned, Sequence(st) + 1) == []
    ensures var suffix := EntriesFrom(st.versioned, after + 1);
            suffix != [] ==> st.versioned != [] && suffix[|suffix| - 1] == st.versioned[|st.versioned| - 1]
                             && suffix[|suffix| - 1].sequence == Sequence(st)
    ensures st.versioned != [] && after < Sequence(st) ==> EntriesFrom(st.versioned, after + 1) != []
  {
    FromConsecutive(st.versioned, EntryRowSequence, Sequence(st) + 1, Sequence(st));
    FromConsecutive(st.versioned, EntryRowSequence, after + 1, Sequence(st));
  }

  /** Cutting over an accepted fold fails only when there is nothing to cover. */
  lemma CutOverSucceeds(h: Hash, w: World, st: Storage, catalog: seq<FamilyIdentity>, c: Option<Checkpoint>)
    requires st.policy.Some? && FoldOk(h, w, st, c)
    ensures CutOver(h, st, catalog, c).Ok? <==> EntriesFrom(st.versioned, BaseOf(c).after + 1) != []
  {
    RowsRestoreView(ViewOver(h, st, c).value, catalog);
  }

  /** The rows of a view of this world are rows of this world. */
  lemma ViewRowsViewOk(w: World, v: View, catalog: seq<FamilyIdentity>)
    requires ViewOk(w, v)
    ensures IntoRows(v, catalog).Ok?
    ensures var rows := IntoRows(v, catalog).value.rows;
            && ApplyCheckpointRows(EMPTY_VIEW, rows).Ok?
            && ApplyCheckpointRows(EMPTY_VIEW, rows).value.rows == v.rows
            && ViewOk(w, ApplyCheckpointRows(EMPTY_VIEW, rows).value)
  {
    RowsRestoreView(v, catalog);
    var rows := IntoRows(v, catalog).value.rows;
    forall row | row in rows
      ensures row.family.table == w.Home(row.family.Key()) && row.key.Identifier? == (row.family.table in w.identified)
    {
      assert row.At() in v.touched && row.At().Family() == row.family.Key();
    }
    RowsViewOk(w, rows);
  }

  /** What a cut checkpoint is: this store's view, verified, covering the whole log. */
  lemma CutOverMeaning(h: Hash, w: World, st: Storage, catalog: seq<FamilyIdentity>, c: Option<Checkpoint>)
    requires st.policy.Some? && Sequenced(st) && CoversOk(st, c) && FoldOk(h, w, st, c)
    requires CutOver(h, st, catalog, c).Ok?
    ensures var k, v := CutOver(h, st, catalog, c).value, ViewOver(h, st, c).value;
            && Verify(h, k) == Ok(())
            && ApplyCheckpointRows(EMPTY_VIEW, k.Rows()).Ok?
            && ApplyCheckpointRows(EMPTY_VIEW, k.Rows()).value.rows == v.rows
            && ViewOk(w, ApplyCheckpointRows(EMPTY_VIEW, k.Rows()).value)
            && k.metadata.segments == References(h, k.segments)
            && k.metadata.last == Sequence(st) && Some(k.metadata.coveredDigest) == st.head
  {
    var b, v := BaseOf(c), ViewOver(h, st, c).value;
    SuffixReachesCursor(st, b.after);
    ViewRowsViewOk(w, v, catalog);
    CutCheckpointVerifies(h, v, catalog, CutOver(h, st, catalog, c).value.metadata);
  }

  lemma PutLoads(h: Hash, st: Storage, k: Checkpoint)
    requires Verify(h, k) == Ok(()) && k.metadata.segments == References(h, k.segments)
    ensures LatestCheckpoint(h, PutCheckpoint(h, st, k)) == Ok(Some(k)) <==> Distinguished(h, k.segments)
  {
    SegmentsLoadBack(h, st.segments, k.segments);
  }

  lemma CoversAfterPut(h: Hash, st: Storage, k: Checkpoint)
    requires st.policy.Some? && Complete(st) && k.metadata.last == Sequence(st)
    ensures CoversOk(PutCheckpoint(h, st, k), Some(k))
  {
  }

  lemma ViewAfterPut(h: Hash, st: Storage, k: Checkpoint)
    requires EntriesFrom(st.versioned, Sequence(st) + 1) == [] && ApplyCheckpointRows(EMPTY_VIEW, k.Rows()).Ok?
    requires k.metadata.last == Sequence(st) && Some(k.metadata.coveredDigest) == st.head
    ensures BaseOf(Some(k)) == Base(k.Rows(), st.head, Sequence(st))
    ensures ViewOver(h, PutCheckpoint(h, st, k), Some(k)) == ApplyCheckpointRows(EMPTY_VIEW, k.Rows())
  {
  }

  lemma FoldAfterPut(h: Hash, w: World, st: Storage, c: Option<Checkpoint>, k: Checkpoint)
    requires FoldOk(h, w, st, c) && EntriesFrom(st.versioned, Sequence(st) + 1) == []
    requires k.metadata.last == Sequence(st) && Some(k.metadata.coveredDigest) == st.head
    requires ApplyCheckpointRows(EMPTY_VIEW, k.Rows()).Ok?
    requires ApplyCheckpointRows(EMPTY_VIEW, k.Rows()).value.rows == ViewOver(h, st, c).value.rows
    requires ViewOk(w, ApplyCheckpointRows(EMPTY_VIEW, k.Rows()).value)
    ensures FoldOk(h, w, PutCheckpoint(h, st, k), Some(k))
    ensures ViewOver(h, PutCheckpoint(h, st, k), Some(k)).value.rows == ViewOver(h, st, c).value.rows
  {
    ViewAfterPut(h, st, k);
  }

  lemma PutPreserves(h: Hash, w: World, st: Storage, catalog: seq<FamilyIdentity>, c: Option<Checkpoint>, k: Checkpoint)
    requires CatalogOk(w, st, catalog) && Sequenced(st) && Linked(h, st) && CoversOk(st, c) && FoldOk(h, w, st, c)
    requires st.policy.Some? && Complete(st) && CutOver(h, st, catalog, c) == Ok(k) && Distinguished(h, k.segments)
    ensures Inv(h, w, PutCheckpoint(h, st, k), catalog)
    ensures LatestCheckpoint(h, PutCheckpoint(h, st, k)) == Ok(Some(k)) && k.metadata.last == Sequence(st)
    ensures ViewOver(h, PutCheckpoint(h, st, k), Some(k)).value.rows == ViewOver(h, st, c).value.rows
  {
    CutOverMeaning(h, w, st, catalog, c);
    PutLoads(h, st, k);
    SuffixReachesCursor(st, 0);
    CoversAfterPut(h, st, k);
    FoldAfterPut(h, w, st, c, k);
  }

  /** A checkpoint changes no row of the view and keeps the invariant. It is
      readable from then on exactly when the hash distinguishes its segments. */
  lemma CheckpointPreserves(h: Hash, w: World, st: Storage, catalog: seq<FamilyIdentity>)
    requires Inv(h, w, st, catalog) && CutCheckpoint(h, st, catalog).Ok?
    ensures var k, st' := CutCheckpoint(h, st, catalog).value, WriteCheckpoint(h, st, catalog).value;
            && (LatestCheckpoint(h, st') == Ok(Some(k)) <==> Distinguished(h, k.segments))
            && (Distinguished(h, k.segments) ==>
                  && Inv(h, w, st', catalog)
                  && k.metadata.last == Sequence(st)
                  && CurrentView(h, st').value.rows == CurrentView(h, st).value.rows)
  {
    var c := LatestCheckpoint(h, st).value;
    var k := CutCheckpoint(h, st, catalog).value;
    CutOverMeaning(h, w, st, catalog, c);
    PutLoads(h, st, k);
    if Distinguished(h, k.segments) { PutPreserves(h, w, st, catalog, c, k); }
  }

  // ---- Trimming covered history ----

  function Saturating(a: nat, b: nat): nat { if b <= a then a - b else 0 }

  /** The retained checkpoint, re-rooted: it no longer names a predecessor. */
  function Rooted(h: Hash, m: Metadata): Metadata { SealMetadata(h, m.(previous := None)) }

  function Referenced(m: Metadata): set<Digest> { set r | r in m.segments :: r.digest }

  /** Remove every log, outbox, checkpoint and segment row the checkpoint covers. */
  function Trim(h: Hash, st: Storage, k: Checkpoint): Storage {
    var start := k.metadata.last + 1;
    var commits := From(st.commits, CommitRowSequence, start);
    var versioned := EntriesFrom(st.versioned, start);
    st.(commits := commits,
        versioned := versioned,
        commitCount := Saturating(st.commitCount, Saturating(|st.commits|, |commits|)),
        versionedCount := Saturating(st.versionedCount, Saturating(|st.versioned|, |versioned|)),
        outbox := From(st.outbox, OutboxRowSequence, start),
        checkpoints := map[k.metadata.sequence := Rooted(h, k.metadata)],
        segments := map d | d in st.segments && d in Referenced(k.metadata) :: st.segments[d])
  }

  lemma {:induction false} LoadRestricted(all: map<Digest, Segment>, some: map<Digest, Segment>,
                                          references: seq<SegmentReference>)
    requires forall r :: r in references ==> (r.digest in some <==> r.digest in all)
    requires forall d :: d in some ==> d in all && some[d] == all[d]
    ensures LoadSegments(some, references) == LoadSegments(all, references)
  {
    if references != [] {
      assert references[|references| - 1] in references;
      LoadRestricted(all, some, references[..|references| - 1]);
    }
  }

  lemma RootedVerifies(h: Hash, k: Checkpoint)
    requires Verify(h, k) == Ok(())
    ensures Verify(h, Checkpoint(Rooted(h, k.metadata), k.segments)) == Ok(())
  {
  }

  lemma TrimLoads(h: Hash, st: Storage, k: Checkpoint)
    requires LatestCheckpoint(h, st) == Ok(Some(k)) && st.latestCheckpoint == Some(k.metadata.sequence)
    ensures LatestCheckpoint(h, Trim(h, st, k)) == Ok(Some(Checkpoint(Rooted(h, k.metadata), k.segments)))
    ensures Trim(h, st, k).segments.Keys == Referenced(k.metadata)
  {
    var refs, kept := k.metadata.segments, Trim(h, st, k).segments;
    assert st.checkpoints[k.metadata.sequence] == k.metadata;
    LoadAt(st.segments, refs);
    assert forall r :: r in refs ==> r.digest in Referenced(k.metadata);
    LoadRestricted(st.segments, kept, refs);
    RootedVerifies(h, k);
  }

  lemma TrimSequenced(h: Hash, st: Storage, k: Checkpoint)
    requires Sequenced(st) && Complete(st) && Sequence(st) - |st.versioned| <= k.metadata.last <= Sequence(st)
    ensures Sequenced(Trim(h, st, k)) && Complete(Trim(h, st, k))
    ensures |Trim(h, st, k).versioned| == Sequence(st) - k.metadata.last
  {
    var cut := k.metadata.last + |st.versioned| - Sequence(st);
    FromConsecutive(st.commits, CommitRowSequence, k.metadata.last + 1, Sequence(st));
    FromConsecutive(st.versioned, EntryRowSequence, k.metadata.last + 1, Sequence(st));
    AlignedSuffix(st.commits, st.versioned, Sequence(st), cut);
  }

  lemma {:induction false} ChainedStarts(h: Hash, entries: seq<Entry>, head: Option<Digest>)
    requires Chained(h, entries, head) && entries != []
    ensures entries[0].previous == head
  {
    if |entries| > 1 { ChainedStarts(h, entries[..|entries| - 1], head); }
  }

  lemma TrimLinked(h: Hash, w: World, st: Storage, k: Checkpoint)
    requires FoldOk(h, w, st, Some(k))
    ensures Linked(h, Trim(h, st, k))
  {
    var b, suffix := BaseOf(Some(k)), EntriesFrom(st.versioned, k.metadata.last + 1);
    FoldMeaning(h, ApplyCheckpointRows(EMPTY_VIEW, b.rows).value, suffix, b.head);
    if suffix != [] { ChainedStarts(h, suffix, b.head); }
  }

  lemma {:induction false} FromTwice<T>(rows: seq<T>, at: T -> nat, start: nat)
    ensures From(From(rows, at, start), at, start) == From(rows, at, start)
  {
    if rows != [] {
      var init, last := rows[..|rows| - 1], rows[|rows| - 1];
      FromTwice(init, at, start);
      if at(last) >= start { FromAppend(From(init, at, start), last, at, start); }
      assert From(init, at, start) + [] == From(init, at, start);
    }
  }

  lemma TrimFold(h: Hash, w: World, st: Storage, k: Checkpoint)
    requires FoldOk(h, w, st, Some(k)) && Complete(st)
    ensures FoldOk(h, w, Trim(h, st, k), Some(Checkpoint(Rooted(h, k.metadata), k.segments)))
    ensures ViewOver(h, Trim(h, st, k), Some(Checkpoint(Rooted(h, k.metadata), k.segments))) == ViewOver(h, st, Some(k))
  {
    FromTwice(st.versioned, EntryRowSequence, k.metadata.last + 1);
  }

  /** Removing checkpoint-covered history keeps the invariant and the whole view,
      and leaves exactly the segments the retained checkpoint references. */
  lemma TrimPreserves(h: Hash, w: World, st: Storage, catalog: seq<FamilyIdentity>)
    requires Inv(h, w, st, catalog) && LatestCheckpoint(h, st).value.Some?
    ensures var k := LatestCheckpoint(h, st).value.value;
            var st' := Trim(h, st, k);
            && Inv(h, w, st', catalog)
            && CurrentView(h, st') == CurrentView(h, st)
            && LatestCheckpoint(h, st') == Ok(Some(Checkpoint(Rooted(h, k.metadata), k.segments)))
            && st'.segments.Keys == Referenced(k.metadata)
            && |st'.versioned| == Sequence(st) - k.metadata.last
  {
    var k := LatestCheckpoint(h, st).value.value;
    TrimLoads(h, st, k);
    TrimSequenced(h, st, k);
    TrimLinked(h, w, st, k);
    TrimFold(h, w, st, k);
  }
}
