// What a content address binds: a checkpoint that verifies, and what an import refuses.
module Bindings {
  import opened ByteStrings
  import opened Errors
  import opened Versioning
  import opened CanonicalViews
  import opened Checkpoints
  import opened Stores
  import opened Streams
  import opened Rebuilding
  import opened Imports

  // ---- What verification promises ----

  /** Every content address of a checkpoint is the one its content has. */
  ghost predicate Addressed(h: Hash, k: Checkpoint) {
    && MetadataDigest(h, k.metadata) == k.metadata.digest
    && |k.segments| == |k.metadata.segments|
    && (forall i :: 0 <= i < |k.segments| ==> h(SegmentItem(k.segments[i])) == k.metadata.segments[i].digest)
    && (forall row :: row in Concat(k.segments) ==> row.payload.Record?)
    && h(ViewItem(LastPayloads(Concat(k.segments)))) == k.metadata.viewDigest
  }

  /** The last payload of each row key. */
  function LastPayloads(rows: seq<ViewRow>): map<ViewKey, Bytes> {
    if rows == [] then map[]
    else
      var before, row := LastPayloads(rows[..|rows| - 1]), rows[|rows| - 1];
      match row.payload
      case Record(bytes) => before[ViewKey(row.family.family, row.family.schemaHash, row.key) := bytes]
      case Tombstone => before
  }

  lemma {:induction false} RowsFold(rows: seq<ViewRow>)
    ensures ApplyCheckpointRows(EMPTY_VIEW, rows).Ok? <==> forall row :: row in rows ==> row.payload.Record?
    ensures ApplyCheckpointRows(EMPTY_VIEW, rows).Ok? ==>
              ApplyCheckpointRows(EMPTY_VIEW, rows).value.rows == LastPayloads(rows)
  {
    if rows != [] {
      var init, row := rows[..|rows| - 1], rows[|rows| - 1];
      RowsFold(init);
      assert rows == init + [row];
    }
  }

  lemma {:induction false} SegmentsAddressed(h: Hash, segments: seq<Segment>, references: seq<SegmentReference>)
    requires |segments| == |references|
    ensures VerifySegments(h, segments, references).Ok?
            <==> forall i :: 0 <= i < |segments| ==> h(SegmentItem(segments[i])) == references[i].digest
  {
    if segments != [] {
      var n := |segments| - 1;
      SegmentsAddressed(h, segments[..n], references[..n]);
      if VerifySegments(h, segments[..n], references[..n]).Ok? {
        assert forall i :: 0 <= i < n ==> h(SegmentItem(segments[..n][i])) == references[..n][i].digest;
      }
    }
  }

  /** Verification accepts a checkpoint if and only if all its addresses are true. */
  lemma VerifiedMeansAddressed(h: Hash, k: Checkpoint)
    ensures Verify(h, k).Ok? <==> Addressed(h, k)
  {
    RowsFold(k.Rows());
    if |k.segments| == |k.metadata.segments| { SegmentsAddressed(h, k.segments, k.metadata.segments); }
  }

  /** Two different byte streams of one hash. */
  ghost predicate Collision(f: ByteHash, x: Hashed, y: Hashed) {
    StreamOf(x) != StreamOf(y) && f(StreamOf(x)) == f(StreamOf(y))
  }

  ghost predicate CheckpointFits(k: Checkpoint) {
    MetadataFits(k.metadata) && forall s :: s in k.segments ==> SegmentFits(s)
  }

  lemma MetadataDigestBinds(f: ByteHash, a: Metadata, b: Metadata)
    requires MetadataFits(a) && MetadataFits(b) && a.digest == b.digest
    requires MetadataDigest(OfBytes(f), a) == a.digest && MetadataDigest(OfBytes(f), b) == b.digest
    ensures a == b || Collision(f, MetadataItem(a.(digest := ZeroDigest())), MetadataItem(b.(digest := ZeroDigest())))
  {
    var x, y := a.(digest := ZeroDigest()), b.(digest := ZeroDigest());
    DigestOfBytes(f, MetadataItem(x));
    DigestOfBytes(f, MetadataItem(y));
    if MetadataStream(x) == MetadataStream(y) { MetadataDecodable(x, y); }
  }

  /** The digest of a checkpoint binds all of it, payload included: two that verify
      under one digest are one checkpoint, or two streams that share a hash are
      returned. */
  lemma CheckpointDigestBinds(f: ByteHash, a: Checkpoint, b: Checkpoint) returns (x: Hashed, y: Hashed)
    requires Verify(OfBytes(f), a).Ok? && Verify(OfBytes(f), b).Ok? && a.metadata.digest == b.metadata.digest
    requires CheckpointFits(a) && CheckpointFits(b)
    ensures a == b || Collision(f, x, y)
  {
    var h := OfBytes(f);
    VerifiedMeansAddressed(h, a);
    VerifiedMeansAddressed(h, b);
    MetadataDigestBinds(f, a.metadata, b.metadata);
    x, y := MetadataItem(a.metadata.(digest := ZeroDigest())), MetadataItem(b.metadata.(digest := ZeroDigest()));
    if a.metadata == b.metadata && a.segments != b.segments {
      x, y := SegmentsBind(f, a, b);
    }
  }

  lemma SegmentsBind(f: ByteHash, a: Checkpoint, b: Checkpoint) returns (x: Hashed, y: Hashed)
    requires Addressed(OfBytes(f), a) && Addressed(OfBytes(f), b) && a.metadata == b.metadata
    requires CheckpointFits(a) && CheckpointFits(b) && a.segments != b.segments
    ensures Collision(f, x, y)
  {
    var i := SomeDifference(a.segments, b.segments);
    assert a.segments[i] in a.segments && b.segments[i] in b.segments;
    x, y := SegmentItem(a.segments[i]), SegmentItem(b.segments[i]);
    SegmentBinds(f, a.segments[i], b.segments[i]);
  }

  lemma SegmentBinds(f: ByteHash, a: Segment, b: Segment)
    requires SegmentFits(a) && SegmentFits(b) && a != b && OfBytes(f)(SegmentItem(a)) == OfBytes(f)(SegmentItem(b))
    ensures Collision(f, SegmentItem(a), SegmentItem(b))
  {
    DigestBindsSegment(f, a, b);
  }

  lemma SomeDifference(a: seq<Segment>, b: seq<Segment>) returns (i: nat)
    requires |a| == |b| && a != b
    ensures i < |a| && a[i] != b[i]
  {
    i :| i < |a| && a[i] != b[i];
  }

  // ---- What an import refuses ----

  /** An import session takes one checkpoint, and only one whose every address is true. */
  lemma IngestVerdict(h: Hash, i: Import, k: Checkpoint)
    ensures IngestCheckpoint(h, i, k).Ok? <==> i.checkpoint.None? && Addressed(h, k)
    ensures IngestCheckpoint(h, i, k).Ok? ==> IngestCheckpoint(h, i, k).value == Import(Some(k), i.suffix)
  {
    VerifiedMeansAddressed(h, k);
  }

  /** A session that ingested a copy under a digest the source published holds the
      source's checkpoint, or two streams share a hash. */
  lemma IngestedIsTheOriginal(f: ByteHash, i: Import, k: Checkpoint, original: Checkpoint)
    returns (x: Hashed, y: Hashed)
    requires IngestCheckpoint(OfBytes(f), i, k).Ok? && Verify(OfBytes(f), original).Ok?
    requires k.metadata.digest == original.metadata.digest && CheckpointFits(k) && CheckpointFits(original)
    ensures IngestCheckpoint(OfBytes(f), i, k).value.checkpoint == Some(original) || Collision(f, x, y)
  {
    IngestVerdict(OfBytes(f), i, k);
    VerifiedMeansAddressed(OfBytes(f), k);
    x, y := CheckpointDigestBinds(f, k, original);
  }

  /** No row of any plane an import writes, and no family in memory. */
  ghost predicate Untouched(st: Storage, catalog: seq<FamilyIdentity>) {
    && |catalog| == 0 && |st.commits| == 0 && |st.versioned| == 0 && st.registrations.Keys == {}
    && st.sequence == None && st.snapshot == None && st.latestCheckpoint == None
  }

  /** An import starts on a versioned store nothing was written to, of the checkpoint's
      own name, and only from an inventory its schema hash names. */
  lemma ImportVerdict(h: Hash, st: Storage, catalog: seq<FamilyIdentity>, m: Metadata)
    ensures BeginImport(st, catalog).Ok? <==> st.policy.Some? && Untouched(st, catalog)
    ensures ImportAdmits(h, st, catalog, m).Ok?
            <==> BeginImport(st, catalog).Ok? && m.storeName == st.policy.value.storeName
                 && m.schemaHash == StoreSchemaHash(h, m.inventory.families)
  {
  }

  /** An import that folds writes the store before it fills the catalog, and reports
      success exactly when the inventory names no table twice. */
  lemma ImportNamesTablesOnce(h: Hash, st: Storage, catalog: seq<FamilyIdentity>, directory: Directory,
                              k: Checkpoint, suffix: seq<Entry>)
    requires ImportAdmits(h, st, catalog, k.metadata).Ok? && FoldImport(h, st.tables, directory, k, suffix).Ok?
    ensures var out, families := ApplyImport(h, st, catalog, directory, k, suffix), k.metadata.inventory.families;
            && out.storage.latestCheckpoint == Some(k.metadata.sequence)
            && (out.result.Ok? <==> DistinctTables(families))
            && (out.result.Ok? ==> out.catalog == families)
  {
    var families := k.metadata.inventory.families;
    ImportVerdict(h, st, catalog, k.metadata);
    assert catalog == [] && catalog + families == families;
    InsertsVerdict(catalog, families);
    if DistinctTables(families) { InsertsDistinct(catalog, families); }
  }

  /** An inventory other than the one a schema hash was taken of is refused, or two
      streams share a hash. */
  lemma ImportBindsInventory(f: ByteHash, st: Storage, catalog: seq<FamilyIdentity>, m: Metadata,
                             families: seq<FamilyIdentity>)
    requires m.schemaHash == StoreSchemaHash(OfBytes(f), families)
    requires InventoryFits(families) && InventoryFits(m.inventory.families)
    ensures ImportAdmits(OfBytes(f), st, catalog, m).Ok? && Pairs(m.inventory.families) != Pairs(families) ==>
              SchemaStream(m.inventory.families) != SchemaStream(families)
              && f(SchemaStream(m.inventory.families)) == f(SchemaStream(families))
    ensures Pairs(m.inventory.families) == Pairs(families) ==>
              (ImportAdmits(OfBytes(f), st, catalog, m).Ok?
               <==> BeginImport(st, catalog).Ok? && m.storeName == st.policy.value.storeName)
  {
    ImportVerdict(OfBytes(f), st, catalog, m);
    SchemaHashBindsInventory(f, m.inventory.families, families);
  }
}
