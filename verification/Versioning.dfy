// Record keys, family identities, logged operations, commit entries and what the
// engine hashes of them.
module Versioning {
  import opened ByteStrings

  type Name = Bytes

  // ---- Record keys ----

  datatype RecordKey = Domain(text: Bytes) | Identifier(id: nat)

  /** The canonical text of a key: the domain text, or the identifier in decimal. */
  function Text(key: RecordKey): Bytes {
    match key
    case Domain(text) => text
    case Identifier(id) => Decimal(id)
  }

  function KindTag(key: RecordKey): Byte { if key.Domain? then 1 else 2 }

  function EncodedLength(key: RecordKey): nat { 1 + |Text(key)| }

  predicate KeyLeq(a: RecordKey, b: RecordKey) {
    match (a, b)
    case (Domain(x), Domain(y)) => Lex(x, y)
    case (Domain(_), Identifier(_)) => true
    case (Identifier(_), Domain(_)) => false
    case (Identifier(i), Identifier(j)) => i <= j
  }

  // ---- Family identities ----

  /** The semantic coordinate of a family: name and per-family schema hash. */
  datatype FamilyKey = FamilyKey(family: Bytes, schemaHash: Digest)

  datatype FamilyIdentity = FamilyIdentity(family: Bytes, schemaHash: Digest, table: Name) {
    function Key(): FamilyKey { FamilyKey(family, schemaHash) }
  }

  // ---- Operations and entries ----

  datatype SemaOperation = Assert | Mutate | Retract | Match | Subscribe | Validate

  /** The record head of an operation, as fed to the digest. */
  function RecordHead(operation: SemaOperation): Bytes {
    match operation
    case Assert => [65, 115, 115, 101, 114, 116]
    case Mutate => [77, 117, 116, 97, 116, 101]
    case Retract => [82, 101, 116, 114, 97, 99, 116]
    case Match => [77, 97, 116, 99, 104]
    case Subscribe => [83, 117, 98, 115, 99, 114, 105, 98, 101]
    case Validate => [86, 97, 108, 105, 100, 97, 116, 101]
  }

  datatype Payload = Record(bytes: Bytes) | Tombstone

  datatype LogOperation =
    LogOperation(operation: SemaOperation, family: FamilyIdentity, key: Option<RecordKey>, payload: Payload)

  /** A versioned commit log entry. The log keeps the digest beside the fields it covers. */
  datatype Entry = Entry(
    storeName: Bytes,
    schemaHash: Digest,
    sequence: nat,
    snapshot: nat,
    previous: Option<Digest>,
    operations: seq<LogOperation>,
    digest: Digest)

  // ---- Metadata log ----

  datatype CommitOperation = CommitOperation(operation: SemaOperation, table: Name, key: Option<RecordKey>)
  datatype CommitEntry = CommitEntry(sequence: nat, snapshot: nat, operations: seq<CommitOperation>)

  function ProjectOperation(op: LogOperation): CommitOperation {
    CommitOperation(op.operation, op.family.table, op.key)
  }

  function ProjectOperations(ops: seq<LogOperation>): seq<CommitOperation> {
    seq(|ops|, i requires 0 <= i < |ops| => ProjectOperation(ops[i]))
  }

  function Project(e: Entry): CommitEntry {
    CommitEntry(e.sequence, e.snapshot, ProjectOperations(e.operations))
  }

  // ---- View rows ----

  /** The semantic coordinate of a row: the table is deliberately not part of it. */
  datatype ViewKey = ViewKey(family: Bytes, schemaHash: Digest, key: RecordKey) {
    function Family(): FamilyKey { FamilyKey(family, schemaHash) }
  }

  datatype ViewRow = ViewRow(family: FamilyIdentity, key: RecordKey, payload: Payload) {
    function At(): ViewKey { ViewKey(family.family, family.schemaHash, key) }
  }

  // ---- Checkpoint metadata ----

  datatype SegmentReference = SegmentReference(digest: Digest, rowCount: nat)
  datatype IdentifiedCounter = IdentifiedCounter(table: Name, next: nat)
  datatype Inventory = Inventory(families: seq<FamilyIdentity>, counters: seq<IdentifiedCounter>)

  datatype Metadata = Metadata(
    sequence: nat,
    storeName: Bytes,
    schemaHash: Digest,
    inventory: Inventory,
    first: nat,
    last: nat,
    coveredSnapshot: nat,
    coveredDigest: Digest,
    viewDigest: Digest,
    previous: Option<Digest>,
    segments: seq<SegmentReference>,
    digest: Digest)

  // ---- Digests ----

  /** What the engine hashes. The byte stream of each item is fixed elsewhere. */
  datatype Hashed =
    | EntryItem(entry: Entry)
    | SchemaItem(inventory: seq<FamilyKey>)
    | ViewItem(rows: map<ViewKey, Bytes>)
    | SegmentItem(segment: seq<ViewRow>)
    | MetadataItem(metadata: Metadata)

  /** The hash is a parameter of the whole model: nothing is assumed about it,
      in particular not that it is injective. */
  type Hash = Hashed -> Digest

  /** The digest of an entry covers every field but the stored digest. */
  function EntryDigest(h: Hash, e: Entry): Digest { h(EntryItem(e.(digest := ZeroDigest()))) }

  /** A freshly minted entry carries the digest of its own fields. */
  function Seal(h: Hash, storeName: Bytes, schemaHash: Digest, sequence: nat, snapshot: nat,
                previous: Option<Digest>, operations: seq<LogOperation>): (e: Entry)
    ensures EntryDigest(h, e) == e.digest
  {
    var draft := Entry(storeName, schemaHash, sequence, snapshot, previous, operations, ZeroDigest());
    draft.(digest := h(EntryItem(draft)))
  }

  // ---- Store schema hash ----

  predicate FamilyKeyLeq(a: FamilyKey, b: FamilyKey) {
    if a.family == b.family then Lex(a.schemaHash, b.schemaHash) else Lex(a.family, b.family)
  }

  lemma FamilyKeyOrder()
    ensures TotalOrder(FamilyKeyLeq)
  {
    LexOrder();
  }

  function FamilyKeys(families: seq<FamilyIdentity>): seq<FamilyKey> {
    seq(|families|, i requires 0 <= i < |families| => families[i].Key())
  }

  function Insert(k: FamilyKey, sorted: seq<FamilyKey>): (r: seq<FamilyKey>)
    ensures multiset(r) == multiset(sorted) + multiset{k}
  {
    if sorted == [] || FamilyKeyLeq(k, sorted[0]) then
      assert [k] + sorted == [k] + sorted;
      [k] + sorted
    else
      assert sorted == [sorted[0]] + sorted[1..];
      [sorted[0]] + Insert(k, sorted[1..])
  }

  /** The inventory in ascending order, duplicates kept. */
  function Sort(keys: seq<FamilyKey>): (r: seq<FamilyKey>)
    ensures multiset(r) == multiset(keys)
  {
    if keys == [] then []
    else
      assert keys == [keys[0]] + keys[1..];
      Insert(keys[0], Sort(keys[1..]))
  }

  ghost predicate Sorted(s: seq<FamilyKey>) {
    forall i, j :: 0 <= i < j < |s| ==> FamilyKeyLeq(s[i], s[j])
  }

  function StoreSchemaHash(h: Hash, families: seq<FamilyIdentity>): Digest { h(SchemaItem(Sort(FamilyKeys(families)))) }

  lemma {:induction false} InsertSorted(k: FamilyKey, s: seq<FamilyKey>)
    requires Sorted(s)
    ensures Sorted(Insert(k, s))
  {
    FamilyKeyOrder();
    if s != [] && !FamilyKeyLeq(k, s[0]) {
      assert FamilyKeyLeq(s[0], k);
      InsertSorted(k, s[1..]);
      var rest := Insert(k, s[1..]);
      forall j | 0 <= j < |rest| ensures FamilyKeyLeq(s[0], rest[j]) {
        assert rest[j] in multiset(rest);
        assert rest[j] == k || rest[j] in s[1..];
      }
    } else if s != [] {
      forall j | 0 <= j < |s| ensures FamilyKeyLeq(k, s[j]) {
        assert FamilyKeyLeq(s[0], s[0]);
        assert FamilyKeyLeq(s[0], s[j]);
      }
    }
  }

  lemma {:induction false} SortSorted(keys: seq<FamilyKey>)
    ensures Sorted(Sort(keys))
  {
    if keys != [] {
      SortSorted(keys[1..]);
      InsertSorted(keys[0], Sort(keys[1..]));
    }
  }

  lemma HeadIsLeast(s: seq<FamilyKey>, k: FamilyKey)
    requires Sorted(s) && k in multiset(s)
    ensures s != [] && FamilyKeyLeq(s[0], k)
  {
    var i :| 0 <= i < |s| && s[i] == k;
    if i == 0 { FamilyKeyOrder(); }
  }

  lemma TailCounts(s: seq<FamilyKey>)
    requires s != []
    ensures s == [s[0]] + s[1..] && multiset(s[1..]) == multiset(s) - multiset{s[0]}
  {
    assert s == [s[0]] + s[1..];
  }

  /** A sorted list is determined by its multiset of members. */
  lemma {:induction false} SortedUnique(a: seq<FamilyKey>, b: seq<FamilyKey>)
    requires Sorted(a) && Sorted(b) && multiset(a) == multiset(b)
    ensures a == b
  {
    assert |a| == |multiset(a)| == |multiset(b)| == |b|;
    if a != [] {
      assert a[0] in multiset(a) && b[0] in multiset(b);
      HeadIsLeast(a, b[0]);
      HeadIsLeast(b, a[0]);
      assert a[0] == b[0] by { FamilyKeyOrder(); }
      TailCounts(a);
      TailCounts(b);
      SortedUnique(a[1..], b[1..]);
    }
  }
}
