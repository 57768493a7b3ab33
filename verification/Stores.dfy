// The durable contents of one store, and the atomic updates every write path shares.
module Stores {
  import opened ByteStrings
  import opened Errors
  import opened Versioning
  import opened CanonicalViews
  import opened Checkpoints

  datatype Topology = LocalCheckpoint | Mirror

  datatype Policy = Policy(storeName: Bytes, topology: Topology, maximumLive: nat)

  /** A row coordinate in the storage kernel: a table and the key it stores the
      row under, text for a domain table, a number for an identified one. */
  datatype Coord = Coord(table: Name, slot: RecordKey)

  type Tables = map<Coord, Bytes>

  datatype OutboxRow = OutboxRow(sequence: nat, digest: Digest)
  datatype MirrorHead = MirrorHead(sequence: nat, digest: Digest)

  /** The payload a staged retract removed, by entry and operation index. */
  datatype PreImage = PreImage(entry: nat, operation: nat, bytes: Bytes)
  datatype StagedGroup = StagedGroup(entries: seq<Entry>, preImages: seq<PreImage>)

  datatype Phase = Planned | Applied | Checkpointed
  datatype Intent = Intent(phase: Phase, finalSequence: Option<nat>)

  /** One announced change: the record written, or the record a retract removed. */
  datatype Delta = Delta(operation: SemaOperation, table: Name, key: RecordKey, snapshot: nat, record: Bytes)

  /** Everything one database file holds. Logs and outbox are keyed by commit
      sequence; they are kept here as their rows in key order. Record values are
      identified with their encoded bytes. */
  datatype Storage = Storage(
    policy: Option<Policy>,
    registrations: map<Name, FamilyIdentity>,
    tables: Tables,
    commits: seq<CommitEntry>,
    versioned: seq<Entry>,
    head: Option<Digest>,
    commitCount: nat,
    versionedCount: nat,
    sequence: Option<nat>,
    snapshot: Option<nat>,
    identified: map<Name, nat>,
    checkpoints: map<nat, Metadata>,
    segments: map<Digest, Segment>,
    latestCheckpoint: Option<nat>,
    outbox: seq<OutboxRow>,
    cursor: Option<MirrorHead>,
    slot: Option<StagedGroup>,
    intent: Option<Intent>)

  function EmptyStore(policy: Option<Policy>): Storage {
    Storage(policy, map[], map[], [], [], None, 0, 0, None, None, map[], map[], map[], None, [], None, None, None)
  }

  function Sequence(st: Storage): nat { st.sequence.GetOr(0) }
  function Snapshot(st: Storage): nat { st.snapshot.GetOr(0) }
  function NextIdentifier(identified: map<Name, nat>, table: Name): nat {
    if table in identified then identified[table] else 1
  }

  predicate Mirrored(st: Storage) { st.policy.Some? && st.policy.value.topology.Mirror? }

  /** Every commit carries a versioned entry: the length test the engine makes. */
  predicate Complete(st: Storage) { st.commitCount == st.versionedCount }

  // ---- Log rows ----

  function EntryRowSequence(e: Entry): nat { e.sequence }
  function CommitRowSequence(c: CommitEntry): nat { c.sequence }
  function OutboxRowSequence(r: OutboxRow): nat { r.sequence }

  /** Rows at or past a sequence, in order. */
  function From<T>(rows: seq<T>, at: T -> nat, start: nat): seq<T> {
    if rows == [] then []
    else
      var last := rows[|rows| - 1];
      From(rows[..|rows| - 1], at, start) + if at(last) >= start then [last] else []
  }

  function EntriesFrom(entries: seq<Entry>, start: nat): seq<Entry> { From(entries, EntryRowSequence, start) }

  lemma FromAppend<T>(rows: seq<T>, row: T, at: T -> nat, start: nat)
    ensures From(rows + [row], at, start) == From(rows, at, start) + if at(row) >= start then [row] else []
  {
    assert (rows + [row])[..|rows|] == rows;
  }

  /** On rows numbered consecutively up to `last`, a range is a plain suffix. */
  lemma {:induction false} FromConsecutive<T>(rows: seq<T>, at: T -> nat, start: nat, last: nat)
    requires |rows| <= last
    requires forall i :: 0 <= i < |rows| ==> at(rows[i]) == last - |rows| + 1 + i
    ensures var cut := if start <= last - |rows| + 1 then 0 else if start > last then |rows|
            else start - (last - |rows| + 1);
            From(rows, at, start) == rows[cut..]
  {
    if rows != [] {
      FromConsecutive(rows[..|rows| - 1], at, start, last - 1);
    }
  }

  // ---- Tables ----

  /** How a logged operation lands in its family's table. */
  function OperationOnTables(tables: Tables, op: LogOperation): Tables {
    match op.key
    case None => tables
    case Some(key) =>
      var c := Coord(op.family.table, key);
      match op.payload
      case Record(bytes) => tables[c := bytes]
      case Tombstone => tables - {c}
  }

  function OperationsOnTables(tables: Tables, ops: seq<LogOperation>): Tables {
    if ops == [] then tables
    else OperationOnTables(OperationsOnTables(tables, ops[..|ops| - 1]), ops[|ops| - 1])
  }

  /** A committed identified assert moves its table's counter past its identifier. */
  function AdvanceIdentified(identified: map<Name, nat>, ops: seq<LogOperation>): map<Name, nat> {
    if ops == [] then identified
    else
      var before, op := AdvanceIdentified(identified, ops[..|ops| - 1]), ops[|ops| - 1];
      if op.operation.Assert? && op.key.Some? && op.key.value.Identifier?
      then before[op.family.table := op.key.value.id + 1]
      else before
  }

  // ---- Append ----

  /** One versioned commit, everything it moves in one write. */
  function AppendEntry(st: Storage, e: Entry): Storage {
    st.(tables := OperationsOnTables(st.tables, e.operations),
        commits := st.commits + [Project(e)],
        versioned := st.versioned + [e],
        head := Some(e.digest),
        commitCount := st.commitCount + 1,
        versionedCount := st.versionedCount + 1,
        sequence := Some(e.sequence),
        snapshot := Some(e.snapshot),
        identified := AdvanceIdentified(st.identified, e.operations),
        outbox := st.outbox + if Mirrored(st) then [OutboxRow(e.sequence, e.digest)] else [])
  }

  function AppendEntries(st: Storage, entries: seq<Entry>): Storage {
    if entries == [] then st else AppendEntry(AppendEntries(st, entries[..|entries| - 1]), entries[|entries| - 1])
  }

  lemma AppendEntriesOne(st: Storage, entries: seq<Entry>, e: Entry)
    ensures AppendEntries(st, entries + [e]) == AppendEntry(AppendEntries(st, entries), e)
  {
    assert (entries + [e])[..|entries|] == entries;
  }

  /** The entry the next versioned commit mints. */
  function NextEntry(h: Hash, st: Storage, catalog: seq<FamilyIdentity>, ops: seq<LogOperation>): Entry
    requires st.policy.Some?
  {
    Seal(h, st.policy.value.storeName, StoreSchemaHash(h, catalog), Sequence(st) + 1, Snapshot(st) + 1, st.head, ops)
  }

  // ---- The latest checkpoint ----

  function LoadSegments(segments: map<Digest, Segment>, references: seq<SegmentReference>): Result<seq<Segment>> {
    if references == [] then Ok([])
    else
      var n := |references| - 1;
      var before := LoadSegments(segments, references[..n]);
      if before.Err? then before
      else if references[n].digest !in segments then Err(SegmentMissing(references[n].digest))
      else Ok(before.value + [segments[references[n].digest]])
  }

  /** Load the latest checkpoint and verify every content address of it. */
  function LatestCheckpoint(h: Hash, st: Storage): Result<Option<Checkpoint>> {
    match st.latestCheckpoint
    case None => Ok(None)
    case Some(n) =>
      if n !in st.checkpoints then Err(CheckpointRowMissing(n))
      else
        var loaded := LoadSegments(st.segments, st.checkpoints[n].segments);
        if loaded.Err? then Err(loaded.error)
        else
          var c := Checkpoint(st.checkpoints[n], loaded.value);
          var verified := Verify(h, c);
          if verified.Err? then Err(verified.error) else Ok(Some(c))
  }

  /** Where a fold of the retained log starts. */
  datatype Base = Base(rows: seq<ViewRow>, head: Option<Digest>, after: nat)

  function BaseOf(c: Option<Checkpoint>): Base {
    match c
    case None => Base([], None, 0)
    case Some(ck) => Base(ck.Rows(), Some(ck.metadata.coveredDigest), ck.metadata.last)
  }

  /** The view the log defines over a checkpoint: its rows, then the later entries. */
  function ViewOver(h: Hash, st: Storage, c: Option<Checkpoint>): Result<View> {
    var b := BaseOf(c);
    Fold(h, b.rows, EntriesFrom(st.versioned, b.after + 1), b.head)
  }

  function CurrentView(h: Hash, st: Storage): Result<View> {
    var c := LatestCheckpoint(h, st);
    if c.Err? then Err(c.error) else ViewOver(h, st, c.value)
  }
}
