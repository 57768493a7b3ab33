// Checkpoints with payload: chunked, content-addressed view rows and the metadata
// that names them.
module Checkpoints {
  import opened ByteStrings
  import opened Errors
  import opened Versioning
  import opened CanonicalViews
  import opened ViewFolding

  type Segment = seq<ViewRow>

  // ---- Chunking ----

  const SEGMENT_BYTE_BUDGET := 1024 * 1024

  function RowBytes(row: ViewRow): nat {
    (if row.payload.Record? then |row.payload.bytes| else 0) + EncodedLength(row.key)
  }

  /** The bytes of a list of rows, summed from their fields: every payload, and every
      key's kind byte and text. */
  function Weight(rows: seq<ViewRow>): nat {
    if rows == [] then 0
    else
      var row := rows[|rows| - 1];
      var payload := match row.payload case Record(bytes) => |bytes| case Tombstone => 0;
      Weight(rows[..|rows| - 1]) + payload + 1 + |Text(row.key)|
  }

  function Concat(segments: seq<Segment>): seq<ViewRow> {
    if segments == [] then [] else Concat(segments[..|segments| - 1]) + segments[|segments| - 1]
  }

  /** Closed segments, the open one, and the bytes in the open one. */
  datatype Chunking = Chunking(closed: seq<Segment>, current: Segment, bytes: nat) {
    function Count(): nat { |closed| + if current == [] then 0 else 1 }
  }

  function ChunkRow(c: Chunking, row: ViewRow): Chunking {
    if c.current != [] && c.bytes + RowBytes(row) > SEGMENT_BYTE_BUDGET
    then Chunking(c.closed + [c.current], [row], RowBytes(row))
    else Chunking(c.closed, c.current + [row], c.bytes + RowBytes(row))
  }

  function ChunkRows(rows: seq<ViewRow>): Chunking {
    if rows == [] then Chunking([], [], 0) else ChunkRow(ChunkRows(rows[..|rows| - 1]), rows[|rows| - 1])
  }

  /** The segments of an open chunking. */
  function Segments(c: Chunking): seq<Segment> { if c.current == [] then c.closed else c.closed + [c.current] }

  function Chunk(rows: seq<ViewRow>): seq<Segment> { Segments(ChunkRows(rows)) }

  /** At most one mebibyte, or a single row that alone exceeds it. */
  ghost predicate Allowed(s: Segment) {
    s != [] && (|s| == 1 || Weight(s) <= 1_048_576)
  }

  /** A contiguous partition of the rows into allowed segments. */
  ghost predicate Partition(segments: seq<Segment>, rows: seq<ViewRow>) {
    Concat(segments) == rows && forall s :: s in segments ==> Allowed(s)
  }

  lemma ConcatAppend(segments: seq<Segment>, s: Segment)
    ensures Concat(segments + [s]) == Concat(segments) + s
  {
    assert (segments + [s])[..|segments|] == segments;
  }

  lemma {:induction false} WeightConcat(a: seq<ViewRow>, b: seq<ViewRow>)
    ensures Weight(a + b) == Weight(a) + Weight(b)
  {
    if b == [] {
      assert a + b == a;
    } else {
      assert (a + b)[..|a + b| - 1] == a + b[..|b| - 1];
      WeightConcat(a, b[..|b| - 1]);
    }
  }

  ghost predicate ChunkingOk(c: Chunking, rows: seq<ViewRow>) {
    && Partition(c.closed, Concat(c.closed))
    && Concat(c.closed) + c.current == rows
    && c.bytes == Weight(c.current)
    && (c.current != [] ==> Allowed(c.current))
    && (rows != [] ==> c.current != [])
  }

  lemma SingleWeight(row: ViewRow)
    ensures Weight([row]) == RowBytes(row)
  {
    assert [row][..0] == [];
  }

  lemma ChunkRowOk(c: Chunking, rows: seq<ViewRow>, row: ViewRow)
    requires ChunkingOk(c, rows)
    ensures ChunkingOk(ChunkRow(c, row), rows + [row])
  {
    SingleWeight(row);
    if c.current != [] && c.bytes + RowBytes(row) > SEGMENT_BYTE_BUDGET {
      ConcatAppend(c.closed, c.current);
      assert forall s :: s in c.closed + [c.current] ==> s in c.closed || s == c.current;
    } else {
      WeightConcat(c.current, [row]);
      assert Concat(c.closed) + (c.current + [row]) == Concat(c.closed) + c.current + [row];
    }
  }

  lemma {:induction false} ChunkRowsOk(rows: seq<ViewRow>)
    ensures ChunkingOk(ChunkRows(rows), rows)
  {
    if rows != [] {
      var init, row := rows[..|rows| - 1], rows[|rows| - 1];
      ChunkRowsOk(init);
      ChunkRowOk(ChunkRows(init), init, row);
      assert rows == init + [row];
    }
  }

  /** Of two suffixes of one row list, the longer weighs at least as much. */
  lemma LongerSuffixWeighsMore(rows: seq<ViewRow>, m: nat, n: nat)
    requires m <= n <= |rows|
    ensures Weight(rows[m..]) >= Weight(rows[n..])
  {
    assert rows[m..] == rows[m..n] + rows[n..];
    WeightConcat(rows[m..n], rows[n..]);
  }

  /** Greedy is ahead of p: fewer segments, or as few and a last one no longer. */
  ghost predicate Ahead(c: Chunking, p: seq<Segment>) {
    c.Count() <= |p| && (c.Count() == |p| && p != [] ==> |p[|p| - 1]| >= |c.current|)
  }

  /** A row that continues the partition's last segment. */
  lemma AheadContinues(c: Chunking, init: seq<ViewRow>, row: ViewRow, front: seq<Segment>, q: Segment)
    requires ChunkingOk(c, init) && init == Concat(front) + q && q != []
    requires Weight(q + [row]) <= SEGMENT_BYTE_BUDGET
    requires Ahead(c, front + [q])
    ensures Ahead(ChunkRow(c, row), front + [q + [row]])
  {
    if c.Count() == |front| + 1 {
      var m, n := |init| - |q|, |init| - |c.current|;
      assert init[m..] == q && init[n..] == c.current;
      LongerSuffixWeighsMore(init, m, n);
      WeightConcat(q, [row]);
      SingleWeight(row);
    }
  }

  /** The last segment of a partition, less its last row. */
  lemma LastSegment(rows: seq<ViewRow>, p: seq<Segment>)
    requires Partition(p, rows) && rows != []
    ensures p != [] && p[|p| - 1] in p && p == p[..|p| - 1] + [p[|p| - 1]]
    ensures var n, last := |rows| - 1, p[|p| - 1];
            last != [] && last == last[..|last| - 1] + [rows[n]]
                && rows[..n] == Concat(p[..|p| - 1]) + last[..|last| - 1]
  {
    var front, last := p[..|p| - 1], p[|p| - 1];
    assert last in p && p == front + [last];
    assert rows == Concat(front) + last;
  }

  /** A partition less its last row, where that row shares its segment. */
  lemma ShorterPartition(init: seq<ViewRow>, front: seq<Segment>, q: Segment, row: ViewRow)
    requires init == Concat(front) + q && q != [] && Allowed(q + [row]) && forall s :: s in front ==> Allowed(s)
    ensures Partition(front + [q], init) && Weight(q + [row]) <= SEGMENT_BYTE_BUDGET
  {
    WeightConcat(q, [row]);
    ConcatAppend(front, q);
  }

  /** Greedy stays ahead of every partition, row by row. */
  lemma {:induction false} GreedyStaysAhead(rows: seq<ViewRow>, p: seq<Segment>)
    requires Partition(p, rows)
    ensures Ahead(ChunkRows(rows), p)
  {
    if rows != [] {
      var init, row := rows[..|rows| - 1], rows[|rows| - 1];
      LastSegment(rows, p);
      var front, last := p[..|p| - 1], p[|p| - 1];
      var q := last[..|last| - 1];
      ChunkRowsOk(init);
      if q == [] {
        assert Concat(front) + q == Concat(front);
        GreedyStaysAhead(init, front);
      } else {
        ShorterPartition(init, front, q, row);
        GreedyStaysAhead(init, front + [q]);
        AheadContinues(ChunkRows(init), init, row, front, q);
      }
    }
  }

  /** Chunking loses nothing, respects the budget, and is optimal. */
  lemma ChunkIsOptimal(rows: seq<ViewRow>, other: seq<Segment>)
    ensures Partition(Chunk(rows), rows)
    ensures Partition(other, rows) ==> |Chunk(rows)| <= |other|
  {
    ChunkRowsOk(rows);
    var c := ChunkRows(rows);
    ConcatAppend(c.closed, c.current);
    if Partition(other, rows) { GreedyStaysAhead(rows, other); }
  }

  /** Rows within the budget fit one segment. */
  lemma SmallRowsFit(rows: seq<ViewRow>)
    requires Weight(rows) <= SEGMENT_BYTE_BUDGET
    ensures |Chunk(rows)| <= 1
  {
    if rows == [] {
      ChunkIsOptimal(rows, []);
    } else {
      ConcatAppend([], rows);
      assert [] + [rows] == [rows];
      ChunkIsOptimal(rows, [rows]);
    }
  }

  /** Each segment is closed only because the row that opens the next would have
      taken it past one mebibyte. */
  ghost predicate Filled(segments: seq<Segment>) {
    forall i :: 0 < i < |segments| ==> segments[i] != [] && Weight(segments[i - 1] + [segments[i][0]]) > 1_048_576
  }

  lemma FilledOpens(segments: seq<Segment>, row: ViewRow)
    requires Filled(segments) && (segments != [] ==> Weight(segments[|segments| - 1] + [row]) > 1_048_576)
    ensures Filled(segments + [[row]])
  {
    var after := segments + [[row]];
    forall i | 0 < i < |after| ensures after[i] != [] && Weight(after[i - 1] + [after[i][0]]) > 1_048_576 {
      if i < |segments| { assert after[i] == segments[i]; }
    }
  }

  lemma FilledGrows(front: seq<Segment>, last: Segment, row: ViewRow)
    requires Filled(front + [last]) && last != []
    ensures Filled(front + [last + [row]])
  {
    var before, after := front + [last], front + [last + [row]];
    forall i | 0 < i < |after| ensures after[i] != [] && Weight(after[i - 1] + [after[i][0]]) > 1_048_576 {
      assert after[i][0] == before[i][0] && after[i - 1] == before[i - 1];
    }
  }

  lemma ChunkRowFills(c: Chunking, rows: seq<ViewRow>, row: ViewRow)
    requires ChunkingOk(c, rows) && Filled(Segments(c)) && (c.current == [] ==> c.closed == [])
    ensures Filled(Segments(ChunkRow(c, row))) && ChunkRow(c, row).current != []
  {
    SingleWeight(row);
    WeightConcat(c.current, [row]);
    if c.current == [] || c.bytes + RowBytes(row) > SEGMENT_BYTE_BUDGET {
      FilledOpens(Segments(c), row);
    } else {
      FilledGrows(c.closed, c.current, row);
    }
  }

  lemma {:induction false} ChunkRowsFill(rows: seq<ViewRow>)
    ensures Filled(Segments(ChunkRows(rows))) && (ChunkRows(rows).current == [] ==> ChunkRows(rows).closed == [])
  {
    if rows != [] {
      var init := rows[..|rows| - 1];
      ChunkRowsOk(init);
      ChunkRowsFill(init);
      ChunkRowFills(ChunkRows(init), init, rows[|rows| - 1]);
    }
  }

  /** Chunking is greedy: any two adjacent segments could not have shared the row
      between them. */
  lemma ChunkIsGreedy(rows: seq<ViewRow>)
    ensures Filled(Chunk(rows))
  {
    ChunkRowsFill(rows);
  }

  method ChunkSegments(rows: seq<ViewRow>) returns (segments: seq<Segment>)
    ensures segments == Chunk(rows) && Partition(segments, rows) && Filled(segments)
  {
    segments := [];
    var current: seq<ViewRow> := [];
    var currentBytes := 0;
    for i := 0 to |rows|
      invariant 0 <= currentBytes && ChunkRows(rows[..i]) == Chunking(segments, current, currentBytes)
    {
      var row := rows[i];
      var rowBytes := RowBytes(row);
      assert rows[..i + 1][..i] == rows[..i];
      if current != [] && currentBytes + rowBytes > SEGMENT_BYTE_BUDGET {
        segments := segments + [current];
        current := [];
        currentBytes := 0;
        assert current + [row] == [row];
      }
      currentBytes := currentBytes + rowBytes;
      current := current + [row];
    }
    assert rows[..|rows|] == rows;
    if current != [] {
      segments := segments + [current];
    }
    ChunkIsOptimal(rows, []);
    ChunkIsGreedy(rows);
  }

  // ---- Segments and metadata ----

  function SegmentDigest(h: Hash, s: Segment): Digest { h(SegmentItem(s)) }

  function Reference(h: Hash, s: Segment): SegmentReference { SegmentReference(SegmentDigest(h, s), |s|) }

  function References(h: Hash, segments: seq<Segment>): (r: seq<SegmentReference>)
    ensures |r| == |segments|
  {
    seq(|segments|, i requires 0 <= i < |segments| => Reference(h, segments[i]))
  }

  function RowCounts(references: seq<SegmentReference>): nat {
    if references == [] then 0 else RowCounts(references[..|references| - 1]) + references[|references| - 1].rowCount
  }

  lemma {:induction false} ReferencesCount(h: Hash, segments: seq<Segment>)
    ensures RowCounts(References(h, segments)) == |Concat(segments)|
  {
    if segments != [] {
      assert References(h, segments)[..|segments| - 1] == References(h, segments[..|segments| - 1]);
      ReferencesCount(h, segments[..|segments| - 1]);
    }
  }

  datatype Checkpoint = Checkpoint(metadata: Metadata, segments: seq<Segment>) {
    function Rows(): seq<ViewRow> { Concat(segments) }
  }

  function MetadataDigest(h: Hash, m: Metadata): Digest { h(MetadataItem(m.(digest := ZeroDigest()))) }

  /** Stamp metadata with the digest of its own fields. */
  function SealMetadata(h: Hash, m: Metadata): (r: Metadata)
    ensures MetadataDigest(h, r) == r.digest && r == m.(digest := r.digest)
  {
    m.(digest := MetadataDigest(h, m))
  }

  // ---- Verification ----

  function VerifySegments(h: Hash, segments: seq<Segment>, references: seq<SegmentReference>): Result<()>
    requires |segments| == |references|
  {
    if segments == [] then Ok(())
    else
      var n := |segments| - 1;
      var before := VerifySegments(h, segments[..n], references[..n]);
      if before.Err? then before
      else if SegmentDigest(h, segments[n]) != references[n].digest then Err(SegmentDigestMismatch)
      else Ok(())
  }

  /** Every content address: the metadata digest, each segment against its
      reference, and the view digest of the folded rows. */
  function Verify(h: Hash, c: Checkpoint): Result<()> {
    var stored := c.metadata.segments;
    if MetadataDigest(h, c.metadata) != c.metadata.digest then Err(CheckpointDigestMismatch)
    else if |c.segments| < |stored| then Err(SegmentMissing(stored[|c.segments|].digest))
    else if |c.segments| > |stored| then Err(SegmentSurplus(|stored|, |c.segments|))
    else
      var segments := VerifySegments(h, c.segments, stored);
      if segments.Err? then segments
      else
        var view := Fold(h, c.Rows(), [], None);
        if view.Err? then Err(view.error)
        else if ViewDigest(h, view.value) != c.metadata.viewDigest then Err(ViewDigestMismatch)
        else Ok(())
  }

  lemma {:induction false} RefusedSegments(h: Hash, segments: seq<Segment>, references: seq<SegmentReference>, n: nat)
    requires |segments| == |references| && n <= |segments| && VerifySegments(h, segments[..n], references[..n]).Err?
    ensures VerifySegments(h, segments, references) == VerifySegments(h, segments[..n], references[..n])
  {
    var m := |segments| - 1;
    if n == |segments| {
      assert segments[..n] == segments && references[..n] == references;
    } else {
      assert segments[..m][..n] == segments[..n] && references[..m][..n] == references[..n];
      RefusedSegments(h, segments[..m], references[..m], n);
    }
  }

  method VerifyCheckpoint(h: Hash, c: Checkpoint) returns (r: Result<()>)
    ensures r == Verify(h, c)
  {
    var stored := c.metadata.segments;
    if MetadataDigest(h, c.metadata) != c.metadata.digest {
      return Err(CheckpointDigestMismatch);
    }
    if |c.segments| < |stored| {
      return Err(SegmentMissing(stored[|c.segments|].digest));
    }
    if |c.segments| > |stored| {
      return Err(SegmentSurplus(|stored|, |c.segments|));
    }
    for i := 0 to |stored|
      invariant VerifySegments(h, c.segments[..i], stored[..i]) == Ok(())
    {
      assert c.segments[..i + 1][..i] == c.segments[..i] && stored[..i + 1][..i] == stored[..i];
      var computed := SegmentDigest(h, c.segments[i]);
      if computed != stored[i].digest {
        RefusedSegments(h, c.segments, stored, i + 1);
        return Err(SegmentDigestMismatch);
      }
    }
    assert c.segments[..|stored|] == c.segments && stored[..|stored|] == stored;
    var view := FoldLog(h, c.Rows(), [], None);
    if view.Err? { return Err(view.error); }
    var computedView := ViewDigest(h, view.value.Value());
    if computedView != c.metadata.viewDigest { return Err(ViewDigestMismatch); }
    return Ok(());
  }

  lemma {:induction false} ReferencesVerify(h: Hash, segments: seq<Segment>)
    ensures VerifySegments(h, segments, References(h, segments)) == Ok(())
  {
    if segments != [] {
      var n := |segments| - 1;
      ReferencesVerify(h, segments[..n]);
      assert References(h, segments)[..n] == References(h, segments[..n]);
    }
  }

  /** A checkpoint cut from any self-describing view verifies, and holds exactly
      that view's rows, as many as its references count, whichever other metadata it
      carries. */
  lemma CutCheckpointVerifies(h: Hash, v: View, inventory: seq<FamilyIdentity>, m: Metadata)
    requires SelfDescribing(v)
    requires IntoRows(v, inventory).Ok?
    requires m.segments == References(h, Chunk(IntoRows(v, inventory).value.rows))
    requires m.viewDigest == ViewDigest(h, v) && MetadataDigest(h, m) == m.digest
    ensures var c := Checkpoint(m, Chunk(IntoRows(v, inventory).value.rows));
            && Verify(h, c) == Ok(()) && c.Rows() == IntoRows(v, inventory).value.rows
            && RowCounts(m.segments) == |c.Rows()|
  {
    var rows := IntoRows(v, inventory).value.rows;
    ChunkIsOptimal(rows, []);
    ReferencesCount(h, Chunk(rows));
    ReferencesVerify(h, Chunk(rows));
    RowsRestoreView(v, inventory);
  }
}
