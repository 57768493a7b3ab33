// The exact byte stream the engine feeds to its hash for every hashed item, and
// what those streams identify. A stream is written with the bytes that follow it.
module Streams {
  import opened ByteStrings
  import opened Errors
  import opened Versioning
  import opened CanonicalViews

  // ---- Entries ----

  /** "sema-engine-versioned-commit-log-entry-v2" */
  const ENTRY_TAG: Bytes :=
    [115, 101, 109, 97, 45, 101, 110, 103, 105, 110, 101, 45, 118, 101, 114, 115, 105, 111, 110, 101, 100, 45, 99,
     111, 109, 109, 105, 116, 45, 108, 111, 103, 45, 101, 110, 116, 114, 121, 45, 118, 50]

  function KeyThen(key: RecordKey, rest: Bytes): Bytes { [KindTag(key)] + FrameThen(Text(key), rest) }

  function FamilyThen(f: FamilyIdentity, rest: Bytes): Bytes {
    FrameThen(f.family, FrameThen(f.schemaHash, FrameThen(f.table, rest)))
  }

  function OptionalKeyThen(key: Option<RecordKey>, rest: Bytes): Bytes {
    match key
    case Some(k) => [1] + KeyThen(k, rest)
    case None => [0] + rest
  }

  function PayloadThen(p: Payload, rest: Bytes): Bytes {
    match p
    case Record(bytes) => [1] + FrameThen(bytes, rest)
    case Tombstone => [0] + rest
  }

  function OperationThen(op: LogOperation, rest: Bytes): Bytes {
    FrameThen(RecordHead(op.operation), FamilyThen(op.family, OptionalKeyThen(op.key, PayloadThen(op.payload, rest))))
  }

  function OperationsThen(ops: seq<LogOperation>, rest: Bytes): Bytes {
    if ops == [] then rest else OperationThen(ops[0], OperationsThen(ops[1..], rest))
  }

  /** Everything an entry digest covers; the stored digest itself is not read. */
  function EntryStream(e: Entry): Bytes {
    FrameThen(ENTRY_TAG,
      FrameThen(e.storeName,
        FrameThen(e.schemaHash,
          U64Then(e.sequence,
            U64Then(e.snapshot,
              OptionalDigestThen(e.previous,
                U64Then(|e.operations|,
                  OperationsThen(e.operations, []))))))))
  }

  // ---- Unique decodability ----

  ghost predicate KeyFits(key: RecordKey) {
    match key
    case Domain(text) => |text| < U64_LIMIT
    case Identifier(id) => id < U64_LIMIT
  }

  ghost predicate OperationFits(op: LogOperation) {
    && |op.family.family| < U64_LIMIT && |op.family.table| < U64_LIMIT
    && (op.key.Some? ==> KeyFits(op.key.value))
    && (op.payload.Record? ==> |op.payload.bytes| < U64_LIMIT)
  }

  /** Every length and counter of the entry is a machine word, as the types of
      the program force. */
  ghost predicate EntryFits(e: Entry) {
    && |e.storeName| < U64_LIMIT && e.sequence < U64_LIMIT && e.snapshot < U64_LIMIT
    && |e.operations| < U64_LIMIT
    && forall op :: op in e.operations ==> OperationFits(op)
  }

  lemma KeyCancel(a: RecordKey, x: Bytes, b: RecordKey, y: Bytes)
    requires KeyFits(a) && KeyFits(b)
    requires KeyThen(a, x) == KeyThen(b, y)
    ensures a == b && x == y
  {
    Cancel([KindTag(a)], FrameThen(Text(a), x), [KindTag(b)], FrameThen(Text(b), y));
    assert [KindTag(a)][0] == [KindTag(b)][0];
    FrameCancel(Text(a), x, Text(b), y);
    if a.Identifier? { DecimalInjective(a.id, b.id); }
  }

  lemma FamilyCancel(a: FamilyIdentity, x: Bytes, b: FamilyIdentity, y: Bytes)
    requires |a.family| < U64_LIMIT && |a.table| < U64_LIMIT && |b.family| < U64_LIMIT && |b.table| < U64_LIMIT
    requires FamilyThen(a, x) == FamilyThen(b, y)
    ensures a == b && x == y
  {
    FrameCancel(a.family, FrameThen(a.schemaHash, FrameThen(a.table, x)),
                b.family, FrameThen(b.schemaHash, FrameThen(b.table, y)));
    FrameCancel(a.schemaHash, FrameThen(a.table, x), b.schemaHash, FrameThen(b.table, y));
    FrameCancel(a.table, x, b.table, y);
  }

  lemma OptionalKeyCancel(a: Option<RecordKey>, x: Bytes, b: Option<RecordKey>, y: Bytes)
    requires (a.Some? ==> KeyFits(a.value)) && (b.Some? ==> KeyFits(b.value))
    requires OptionalKeyThen(a, x) == OptionalKeyThen(b, y)
    ensures a == b && x == y
  {
    assert OptionalKeyThen(a, x)[0] == OptionalKeyThen(b, y)[0];
    if a.Some? {
      Cancel([1], KeyThen(a.value, x), [1], KeyThen(b.value, y));
      KeyCancel(a.value, x, b.value, y);
    } else {
      Cancel([0], x, [0], y);
    }
  }

  lemma PayloadCancel(a: Payload, x: Bytes, b: Payload, y: Bytes)
    requires (a.Record? ==> |a.bytes| < U64_LIMIT) && (b.Record? ==> |b.bytes| < U64_LIMIT)
    requires PayloadThen(a, x) == PayloadThen(b, y)
    ensures a == b && x == y
  {
    assert PayloadThen(a, x)[0] == PayloadThen(b, y)[0];
    if a.Record? {
      Cancel([1], FrameThen(a.bytes, x), [1], FrameThen(b.bytes, y));
      FrameCancel(a.bytes, x, b.bytes, y);
    } else {
      Cancel([0], x, [0], y);
    }
  }

  lemma RecordHeadInjective(a: SemaOperation, b: SemaOperation)
    requires RecordHead(a) == RecordHead(b)
    ensures a == b
  {
    assert RecordHead(a)[0] == RecordHead(b)[0] && RecordHead(a)[1] == RecordHead(b)[1];
  }

  lemma OperationCancel(a: LogOperation, x: Bytes, b: LogOperation, y: Bytes)
    requires OperationFits(a) && OperationFits(b)
    requires OperationThen(a, x) == OperationThen(b, y)
    ensures a == b && x == y
  {
    var aPayload, bPayload := PayloadThen(a.payload, x), PayloadThen(b.payload, y);
    var aKey, bKey := OptionalKeyThen(a.key, aPayload), OptionalKeyThen(b.key, bPayload);
    FrameCancel(RecordHead(a.operation), FamilyThen(a.family, aKey), RecordHead(b.operation),
                FamilyThen(b.family, bKey));
    RecordHeadInjective(a.operation, b.operation);
    FamilyCancel(a.family, aKey, b.family, bKey);
    OptionalKeyCancel(a.key, aPayload, b.key, bPayload);
    PayloadCancel(a.payload, x, b.payload, y);
  }

  lemma SameHeadAndTail<T>(a: seq<T>, b: seq<T>)
    requires a != [] && b != [] && a[0] == b[0] && a[1..] == b[1..]
    ensures a == b
  {
    assert a == [a[0]] + a[1..] && b == [b[0]] + b[1..];
  }

  lemma FirstCancel(a: seq<LogOperation>, x: Bytes, b: seq<LogOperation>, y: Bytes)
    requires a != [] && b != [] && OperationFits(a[0]) && OperationFits(b[0])
    requires OperationsThen(a, x) == OperationsThen(b, y)
    ensures a[0] == b[0] && OperationsThen(a[1..], x) == OperationsThen(b[1..], y)
  {
    OperationCancel(a[0], OperationsThen(a[1..], x), b[0], OperationsThen(b[1..], y));
  }

  lemma {:induction false} OperationsCancel(a: seq<LogOperation>, x: Bytes, b: seq<LogOperation>, y: Bytes)
    requires |a| == |b|
    requires forall op :: op in a ==> OperationFits(op)
    requires forall op :: op in b ==> OperationFits(op)
    requires OperationsThen(a, x) == OperationsThen(b, y)
    ensures a == b && x == y
  {
    if a != [] {
      FirstCancel(a, x, b, y);
      OperationsCancel(a[1..], x, b[1..], y);
      SameHeadAndTail(a, b);
    }
  }

  /** The entry digest stream is uniquely decodable: equal streams come from
      entries equal in every covered field. */
  lemma EntryDecodable(a: Entry, b: Entry)
    requires EntryFits(a) && EntryFits(b)
    requires EntryStream(a) == EntryStream(b)
    ensures a == b.(digest := a.digest)
  {
    var aOps, bOps := OperationsThen(a.operations, []), OperationsThen(b.operations, []);
    var aCount, bCount := U64Then(|a.operations|, aOps), U64Then(|b.operations|, bOps);
    var aPrev, bPrev := OptionalDigestThen(a.previous, aCount), OptionalDigestThen(b.previous, bCount);
    var aSnap, bSnap := U64Then(a.snapshot, aPrev), U64Then(b.snapshot, bPrev);
    var aSeq, bSeq := U64Then(a.sequence, aSnap), U64Then(b.sequence, bSnap);
    var aHash, bHash := FrameThen(a.schemaHash, aSeq), FrameThen(b.schemaHash, bSeq);
    FrameCancel(ENTRY_TAG, FrameThen(a.storeName, aHash), ENTRY_TAG, FrameThen(b.storeName, bHash));
    FrameCancel(a.storeName, aHash, b.storeName, bHash);
    FrameCancel(a.schemaHash, aSeq, b.schemaHash, bSeq);
    U64Cancel(a.sequence, aSnap, b.sequence, bSnap);
    U64Cancel(a.snapshot, aPrev, b.snapshot, bPrev);
    OptionalDigestCancel(a.previous, aCount, b.previous, bCount);
    U64Cancel(|a.operations|, aOps, |b.operations|, bOps);
    OperationsCancel(a.operations, [], b.operations, []);
  }

  // ---- Store schema hash ----

  /** "sema-engine-store-schema-hash-v1" */
  const SCHEMA_TAG: Bytes :=
    [115, 101, 109, 97, 45, 101, 110, 103, 105, 110, 101, 45, 115, 116, 111, 114, 101, 45, 115, 99, 104, 101, 109, 97,
     45, 104, 97, 115, 104, 45, 118, 49]

  function InventoryThen(sorted: seq<FamilyKey>, rest: Bytes): Bytes {
    if sorted == [] then rest
    else FrameThen(sorted[0].family, FrameThen(sorted[0].schemaHash, InventoryThen(sorted[1..], rest)))
  }

  function SchemaStream(families: seq<FamilyIdentity>): Bytes {
    var inventory := Sort(FamilyKeys(families));
    FrameThen(SCHEMA_TAG, U64Then(|inventory|, InventoryThen(inventory, [])))
  }

  lemma {:induction false} InventoryCancel(a: seq<FamilyKey>, b: seq<FamilyKey>)
    requires |a| == |b|
    requires forall k :: k in a ==> |k.family| < U64_LIMIT
    requires forall k :: k in b ==> |k.family| < U64_LIMIT
    requires InventoryThen(a, []) == InventoryThen(b, [])
    ensures a == b
  {
    if a != [] {
      var x, y := InventoryThen(a[1..], []), InventoryThen(b[1..], []);
      FrameCancel(a[0].family, FrameThen(a[0].schemaHash, x), b[0].family, FrameThen(b[0].schemaHash, y));
      FrameCancel(a[0].schemaHash, x, b[0].schemaHash, y);
      InventoryCancel(a[1..], b[1..]);
      SameHeadAndTail(a, b);
    }
  }

  ghost predicate InventoryFits(families: seq<FamilyIdentity>) {
    |families| < U64_LIMIT && forall f :: f in families ==> |f.family| < U64_LIMIT
  }

  lemma SortFits(families: seq<FamilyIdentity>)
    requires InventoryFits(families)
    ensures var s := Sort(FamilyKeys(families)); |s| < U64_LIMIT && forall k :: k in s ==> |k.family| < U64_LIMIT
  {
    var s := Sort(FamilyKeys(families));
    assert |s| == |multiset(s)| == |FamilyKeys(families)|;
    forall k | k in s ensures |k.family| < U64_LIMIT {
      assert k in multiset(s);
      assert k in FamilyKeys(families);
    }
  }

  /** Equal schema streams come from the same pairs. */
  lemma SchemaDecodable(a: seq<FamilyIdentity>, b: seq<FamilyIdentity>)
    requires InventoryFits(a) && InventoryFits(b) && SchemaStream(a) == SchemaStream(b)
    ensures Sort(FamilyKeys(a)) == Sort(FamilyKeys(b))
  {
    var s, t := Sort(FamilyKeys(a)), Sort(FamilyKeys(b));
    SortFits(a);
    SortFits(b);
    FrameCancel(SCHEMA_TAG, U64Then(|s|, InventoryThen(s, [])), SCHEMA_TAG, U64Then(|t|, InventoryThen(t, [])));
    U64Cancel(|s|, InventoryThen(s, []), |t|, InventoryThen(t, []));
    InventoryCancel(s, t);
  }

  /** The (family, schema hash) pairs an inventory names, as often as it names them. */
  function Pairs(families: seq<FamilyIdentity>): multiset<(Bytes, Digest)> {
    if families == [] then multiset{}
    else
      var last := families[|families| - 1];
      Pairs(families[..|families| - 1]) + multiset{(last.family, last.schemaHash)}
  }

  lemma {:induction false} PairCount(families: seq<FamilyIdentity>, k: FamilyKey)
    ensures multiset(FamilyKeys(families))[k] == Pairs(families)[(k.family, k.schemaHash)]
  {
    if families != [] {
      var init, last := families[..|families| - 1], families[|families| - 1];
      PairCount(init, k);
      assert FamilyKeys(families) == FamilyKeys(init) + [last.Key()];
    }
  }

  /** Two inventories name the same pairs if and only if their keys are the same. */
  lemma PairsAreKeys(a: seq<FamilyIdentity>, b: seq<FamilyIdentity>)
    ensures Pairs(a) == Pairs(b) <==> multiset(FamilyKeys(a)) == multiset(FamilyKeys(b))
  {
    if Pairs(a) == Pairs(b) {
      forall k ensures multiset(FamilyKeys(a))[k] == multiset(FamilyKeys(b))[k] {
        PairCount(a, k);
        PairCount(b, k);
      }
      assert multiset(FamilyKeys(a)) == multiset(FamilyKeys(b));
    }
    if multiset(FamilyKeys(a)) == multiset(FamilyKeys(b)) {
      forall p ensures Pairs(a)[p] == Pairs(b)[p] {
        PairCount(a, FamilyKey(p.0, p.1));
        PairCount(b, FamilyKey(p.0, p.1));
      }
      assert Pairs(a) == Pairs(b);
    }
  }

  /** Store identity is exactly the multiset of (family, schema hash) pairs: two
      inventories feed the hash one stream if and only if they hold the same
      pairs, whatever their order and whatever tables they name. */
  lemma SchemaStreamIdentifiesInventory(a: seq<FamilyIdentity>, b: seq<FamilyIdentity>)
    requires InventoryFits(a) && InventoryFits(b)
    ensures SchemaStream(a) == SchemaStream(b) <==> Pairs(a) == Pairs(b)
  {
    PairsAreKeys(a, b);
    if SchemaStream(a) == SchemaStream(b) { SchemaDecodable(a, b); }
    if multiset(FamilyKeys(a)) == multiset(FamilyKeys(b)) {
      SortSorted(FamilyKeys(a));
      SortSorted(FamilyKeys(b));
      SortedUnique(Sort(FamilyKeys(a)), Sort(FamilyKeys(b)));
    }
  }

  // ---- The view digest ----

  /** "sema-engine-view-digest-v1" */
  const VIEW_TAG: Bytes :=
    [115, 101, 109, 97, 45, 101, 110, 103, 105, 110, 101, 45, 118, 105, 101, 119, 45, 100, 105, 103, 101, 115, 116, 45,
     118, 49]

  function ViewRowThen(k: ViewKey, payload: Bytes, rest: Bytes): Bytes {
    FrameThen(k.family, FrameThen(k.schemaHash, KeyThen(k.key, FrameThen(payload, rest))))
  }

  function ViewRowsThen(rows: map<ViewKey, Bytes>, keys: seq<ViewKey>, rest: Bytes): Bytes
    requires forall k :: k in keys ==> k in rows
  {
    if keys == [] then rest
    else ViewRowThen(keys[0], rows[keys[0]], ViewRowsThen(rows, keys[1..], rest))
  }

  function ViewStream(rows: map<ViewKey, Bytes>): Bytes {
    FrameThen(VIEW_TAG, U64Then(|rows|, ViewRowsThen(rows, InViewOrder(rows.Keys), [])))
  }

  ghost predicate RowsFit(rows: map<ViewKey, Bytes>) {
    && |rows| < U64_LIMIT
    && forall k :: k in rows ==> |k.family| < U64_LIMIT && KeyFits(k.key) && |rows[k]| < U64_LIMIT
  }

  lemma {:induction false} ViewRowsCancel(r: map<ViewKey, Bytes>, a: seq<ViewKey>, s: map<ViewKey, Bytes>,
                                          b: seq<ViewKey>)
    requires |a| == |b| && RowsFit(r) && RowsFit(s)
    requires (forall k :: k in a ==> k in r) && (forall k :: k in b ==> k in s)
    requires ViewRowsThen(r, a, []) == ViewRowsThen(s, b, [])
    ensures a == b && forall k :: k in a ==> r[k] == s[k]
  {
    if a != [] {
      var i, j := a[0], b[0];
      assert i in a && j in b;
      var x, y := ViewRowsThen(r, a[1..], []), ViewRowsThen(s, b[1..], []);
      var xp, yp := FrameThen(r[i], x), FrameThen(s[j], y);
      var xk, yk := KeyThen(i.key, xp), KeyThen(j.key, yp);
      FrameCancel(i.family, FrameThen(i.schemaHash, xk), j.family, FrameThen(j.schemaHash, yk));
      FrameCancel(i.schemaHash, xk, j.schemaHash, yk);
      KeyCancel(i.key, xp, j.key, yp);
      FrameCancel(r[i], x, s[j], y);
      ViewRowsCancel(r, a[1..], s, b[1..]);
      SameHeadAndTail(a, b);
    }
  }

  lemma ViewDecodable(r: map<ViewKey, Bytes>, s: map<ViewKey, Bytes>)
    requires RowsFit(r) && RowsFit(s) && ViewStream(r) == ViewStream(s)
    ensures InViewOrder(r.Keys) == InViewOrder(s.Keys)
    ensures forall k :: k in InViewOrder(r.Keys) ==> r[k] == s[k]
  {
    var a, b := InViewOrder(r.Keys), InViewOrder(s.Keys);
    FrameCancel(VIEW_TAG, U64Then(|r|, ViewRowsThen(r, a, [])), VIEW_TAG, U64Then(|s|, ViewRowsThen(s, b, [])));
    U64Cancel(|r|, ViewRowsThen(r, a, []), |s|, ViewRowsThen(s, b, []));
    assert |a| == |r.Keys| == |r| && |b| == |s.Keys| == |s|;
    ViewRowsCancel(r, a, s, b);
  }

  /** The view digest names the view: two views feed the hash one stream if and
      only if they hold the same rows. */
  lemma ViewStreamIdentifiesRows(r: map<ViewKey, Bytes>, s: map<ViewKey, Bytes>)
    requires RowsFit(r) && RowsFit(s)
    ensures ViewStream(r) == ViewStream(s) <==> r == s
  {
    if ViewStream(r) == ViewStream(s) {
      ViewDecodable(r, s);
      SameRows(r, s);
    }
  }

  lemma SameRows(r: map<ViewKey, Bytes>, s: map<ViewKey, Bytes>)
    requires InViewOrder(r.Keys) == InViewOrder(s.Keys) && forall k :: k in InViewOrder(r.Keys) ==>
               k in s && r[k] == s[k]
    ensures r == s
  {
    forall k ensures k in r <==> k in s {
      assert k in InViewOrder(r.Keys) <==> k in InViewOrder(s.Keys);
    }
  }

  // ---- Checkpoints ----

  /** "sema-engine-checkpoint-segment-v1" */
  const SEGMENT_TAG: Bytes :=
    [115, 101, 109, 97, 45, 101, 110, 103, 105, 110, 101, 45, 99, 104, 101, 99, 107, 112, 111, 105, 110, 116, 45, 115,
     101, 103, 109, 101, 110, 116, 45, 118, 49]

  /** "sema-engine-checkpoint-v1" */
  const CHECKPOINT_TAG: Bytes :=
    [115, 101, 109, 97, 45, 101, 110, 103, 105, 110, 101, 45, 99, 104, 101, 99, 107, 112, 111, 105, 110, 116, 45, 118,
     49]

  function SegmentRowsThen(rows: seq<ViewRow>, rest: Bytes): Bytes {
    if rows == [] then rest
    else FamilyThen(rows[0].family,
                    KeyThen(rows[0].key, PayloadThen(rows[0].payload, SegmentRowsThen(rows[1..], rest))))
  }

  function SegmentStream(s: seq<ViewRow>): Bytes { FrameThen(SEGMENT_TAG, U64Then(|s|, SegmentRowsThen(s, []))) }

  function FamiliesThen(families: seq<FamilyIdentity>, rest: Bytes): Bytes {
    if families == [] then rest else FamilyThen(families[0], FamiliesThen(families[1..], rest))
  }

  function CountersThen(counters: seq<IdentifiedCounter>, rest: Bytes): Bytes {
    if counters == [] then rest
    else FrameThen(counters[0].table, U64Then(counters[0].next, CountersThen(counters[1..], rest)))
  }

  function ReferencesThen(segments: seq<SegmentReference>, rest: Bytes): Bytes {
    if segments == [] then rest
    else FrameThen(segments[0].digest, U64Then(segments[0].rowCount, ReferencesThen(segments[1..], rest)))
  }

  function InventoryFieldThen(i: Inventory, rest: Bytes): Bytes {
    U64Then(|i.families|, FamiliesThen(i.families, U64Then(|i.counters|, CountersThen(i.counters, rest))))
  }

  /** Everything the checkpoint digest covers. */
  function MetadataStream(m: Metadata): Bytes {
    var tail := OptionalDigestThen(m.previous, U64Then(|m.segments|, ReferencesThen(m.segments, [])));
    var digests := FrameThen(m.coveredDigest, FrameThen(m.viewDigest, tail));
    var words := U64Then(m.first, U64Then(m.last, U64Then(m.coveredSnapshot, digests)));
    FrameThen(CHECKPOINT_TAG,
      U64Then(m.sequence, FrameThen(m.storeName, FrameThen(m.schemaHash, InventoryFieldThen(m.inventory, words)))))
  }

  ghost predicate RowFits(row: ViewRow) {
    && |row.family.family| < U64_LIMIT && |row.family.table| < U64_LIMIT && KeyFits(row.key)
    && (row.payload.Record? ==> |row.payload.bytes| < U64_LIMIT)
  }

  ghost predicate SegmentFits(s: seq<ViewRow>) { |s| < U64_LIMIT && forall row :: row in s ==> RowFits(row) }

  lemma FirstRowCancel(a: seq<ViewRow>, b: seq<ViewRow>)
    requires a != [] && b != [] && RowFits(a[0]) && RowFits(b[0]) && SegmentRowsThen(a, []) == SegmentRowsThen(b, [])
    ensures a[0] == b[0] && SegmentRowsThen(a[1..], []) == SegmentRowsThen(b[1..], [])
  {
    var x, y := SegmentRowsThen(a[1..], []), SegmentRowsThen(b[1..], []);
    FamilyCancel(a[0].family, KeyThen(a[0].key, PayloadThen(a[0].payload, x)), b[0].family,
                 KeyThen(b[0].key, PayloadThen(b[0].payload, y)));
    KeyCancel(a[0].key, PayloadThen(a[0].payload, x), b[0].key, PayloadThen(b[0].payload, y));
    PayloadCancel(a[0].payload, x, b[0].payload, y);
  }

  lemma {:induction false} SegmentRowsCancel(a: seq<ViewRow>, b: seq<ViewRow>)
    requires |a| == |b| && SegmentRowsThen(a, []) == SegmentRowsThen(b, [])
    requires forall row :: row in a ==> RowFits(row)
    requires forall row :: row in b ==> RowFits(row)
    ensures a == b
  {
    if a != [] {
      FirstRowCancel(a, b);
      SegmentRowsCancel(a[1..], b[1..]);
      SameHeadAndTail(a, b);
    }
  }

  /** Equal segment streams come from equal segments. */
  lemma SegmentDecodable(a: seq<ViewRow>, b: seq<ViewRow>)
    requires SegmentFits(a) && SegmentFits(b) && SegmentStream(a) == SegmentStream(b)
    ensures a == b
  {
    var x, y := SegmentRowsThen(a, []), SegmentRowsThen(b, []);
    FrameCancel(SEGMENT_TAG, U64Then(|a|, x), SEGMENT_TAG, U64Then(|b|, y));
    U64Cancel(|a|, x, |b|, y);
    SegmentRowsCancel(a, b);
  }

  ghost predicate FamilyFits(f: FamilyIdentity) { |f.family| < U64_LIMIT && |f.table| < U64_LIMIT }
  ghost predicate CounterFits(c: IdentifiedCounter) { |c.table| < U64_LIMIT && c.next < U64_LIMIT }

  ghost predicate MetadataFits(m: Metadata) {
    && m.sequence < U64_LIMIT && |m.storeName| < U64_LIMIT && m.first < U64_LIMIT && m.last < U64_LIMIT
       && m.coveredSnapshot < U64_LIMIT
    && |m.inventory.families| < U64_LIMIT && |m.inventory.counters| < U64_LIMIT && |m.segments| < U64_LIMIT
    && (forall f :: f in m.inventory.families ==> FamilyFits(f))
    && (forall c :: c in m.inventory.counters ==> CounterFits(c))
    && (forall r :: r in m.segments ==> r.rowCount < U64_LIMIT)
  }

  lemma {:induction false} FamiliesCancel(a: seq<FamilyIdentity>, x: Bytes, b: seq<FamilyIdentity>, y: Bytes)
    requires |a| == |b| && FamiliesThen(a, x) == FamiliesThen(b, y)
    requires (forall f :: f in a ==> FamilyFits(f)) && forall f :: f in b ==> FamilyFits(f)
    ensures a == b && x == y
  {
    if a != [] {
      assert a[0] in a && b[0] in b;
      FamilyCancel(a[0], FamiliesThen(a[1..], x), b[0], FamiliesThen(b[1..], y));
      FamiliesCancel(a[1..], x, b[1..], y);
      SameHeadAndTail(a, b);
    }
  }

  lemma {:induction false} CountersCancel(a: seq<IdentifiedCounter>, x: Bytes, b: seq<IdentifiedCounter>, y: Bytes)
    requires |a| == |b| && CountersThen(a, x) == CountersThen(b, y)
    requires (forall c :: c in a ==> CounterFits(c)) && forall c :: c in b ==> CounterFits(c)
    ensures a == b && x == y
  {
    if a != [] {
      var p, q := CountersThen(a[1..], x), CountersThen(b[1..], y);
      assert CounterFits(a[0]) && CounterFits(b[0]) by { assert a[0] in a && b[0] in b; }
      FrameCancel(a[0].table, U64Then(a[0].next, p), b[0].table, U64Then(b[0].next, q));
      U64Cancel(a[0].next, p, b[0].next, q);
      CountersCancel(a[1..], x, b[1..], y);
      SameHeadAndTail(a, b);
    }
  }

  lemma {:induction false} ReferencesCancel(a: seq<SegmentReference>, b: seq<SegmentReference>)
    requires |a| == |b| && ReferencesThen(a, []) == ReferencesThen(b, [])
    requires (forall r :: r in a ==> r.rowCount < U64_LIMIT) && forall r :: r in b ==> r.rowCount < U64_LIMIT
    ensures a == b
  {
    if a != [] {
      var p, q := ReferencesThen(a[1..], []), ReferencesThen(b[1..], []);
      FrameCancel(a[0].digest, U64Then(a[0].rowCount, p), b[0].digest, U64Then(b[0].rowCount, q));
      U64Cancel(a[0].rowCount, p, b[0].rowCount, q);
      ReferencesCancel(a[1..], b[1..]);
      SameHeadAndTail(a, b);
    }
  }

  lemma InventoryFieldCancel(a: Inventory, x: Bytes, b: Inventory, y: Bytes)
    requires |a.families| < U64_LIMIT && |a.counters| < U64_LIMIT && |b.families| < U64_LIMIT
             && |b.counters| < U64_LIMIT
    requires (forall f :: f in a.families ==> FamilyFits(f)) && forall f :: f in b.families ==> FamilyFits(f)
    requires (forall c :: c in a.counters ==> CounterFits(c)) && forall c :: c in b.counters ==> CounterFits(c)
    requires InventoryFieldThen(a, x) == InventoryFieldThen(b, y)
    ensures a == b && x == y
  {
    var aCounters, bCounters := CountersThen(a.counters, x), CountersThen(b.counters, y);
    var aCount, bCount := U64Then(|a.counters|, aCounters), U64Then(|b.counters|, bCounters);
    U64Cancel(|a.families|, FamiliesThen(a.families, aCount), |b.families|, FamiliesThen(b.families, bCount));
    FamiliesCancel(a.families, aCount, b.families, bCount);
    U64Cancel(|a.counters|, aCounters, |b.counters|, bCounters);
    CountersCancel(a.counters, x, b.counters, y);
  }

  /** Equal checkpoint streams come from metadata equal in every covered field. */
  lemma MetadataDecodable(a: Metadata, b: Metadata)
    requires MetadataFits(a) && MetadataFits(b) && MetadataStream(a) == MetadataStream(b)
    ensures a == b.(digest := a.digest)
  {
    var aRefs, bRefs := ReferencesThen(a.segments, []), ReferencesThen(b.segments, []);
    var aCount, bCount := U64Then(|a.segments|, aRefs), U64Then(|b.segments|, bRefs);
    var aTail, bTail := OptionalDigestThen(a.previous, aCount), OptionalDigestThen(b.previous, bCount);
    var aView, bView := FrameThen(a.viewDigest, aTail), FrameThen(b.viewDigest, bTail);
    var aDigests, bDigests := FrameThen(a.coveredDigest, aView), FrameThen(b.coveredDigest, bView);
    var aSnap, bSnap := U64Then(a.coveredSnapshot, aDigests), U64Then(b.coveredSnapshot, bDigests);
    var aLast, bLast := U64Then(a.last, aSnap), U64Then(b.last, bSnap);
    var aWords, bWords := U64Then(a.first, aLast), U64Then(b.first, bLast);
    var aInventory, bInventory := InventoryFieldThen(a.inventory, aWords), InventoryFieldThen(b.inventory, bWords);
    var aSchema, bSchema := FrameThen(a.schemaHash, aInventory), FrameThen(b.schemaHash, bInventory);
    var aName, bName := FrameThen(a.storeName, aSchema), FrameThen(b.storeName, bSchema);
    FrameCancel(CHECKPOINT_TAG, U64Then(a.sequence, aName), CHECKPOINT_TAG, U64Then(b.sequence, bName));
    U64Cancel(a.sequence, aName, b.sequence, bName);
    FrameCancel(a.storeName, aSchema, b.storeName, bSchema);
    FrameCancel(a.schemaHash, aInventory, b.schemaHash, bInventory);
    InventoryFieldCancel(a.inventory, aWords, b.inventory, bWords);
    U64Cancel(a.first, aLast, b.first, bLast);
    U64Cancel(a.last, aSnap, b.last, bSnap);
    U64Cancel(a.coveredSnapshot, aDigests, b.coveredSnapshot, bDigests);
    FrameCancel(a.coveredDigest, aView, b.coveredDigest, bView);
    FrameCancel(a.viewDigest, aTail, b.viewDigest, bTail);
    OptionalDigestCancel(a.previous, aCount, b.previous, bCount);
    U64Cancel(|a.segments|, aRefs, |b.segments|, bRefs);
    ReferencesCancel(a.segments, b.segments);
  }

  // ---- Hashing bytes ----

  function StreamOf(item: Hashed): Bytes {
    match item
    case EntryItem(e) => EntryStream(e)
    case SchemaItem(inventory) => FrameThen(SCHEMA_TAG, U64Then(|inventory|, InventoryThen(inventory, [])))
    case ViewItem(rows) => ViewStream(rows)
    case SegmentItem(segment) => SegmentStream(segment)
    case MetadataItem(m) => MetadataStream(m)
  }

  type ByteHash = Bytes -> Digest

  /** The engine's digests over a hash of byte strings. */
  function OfBytes(f: ByteHash): Hash { item => f(StreamOf(item)) }

  /** The store schema hash names the inventory: one hash means the same pairs, or
      two distinct streams that share a hash, and the same pairs give one hash. */
  lemma SchemaHashBindsInventory(f: ByteHash, a: seq<FamilyIdentity>, b: seq<FamilyIdentity>)
    requires InventoryFits(a) && InventoryFits(b)
    ensures Pairs(a) == Pairs(b) ==> StoreSchemaHash(OfBytes(f), a) == StoreSchemaHash(OfBytes(f), b)
    ensures StoreSchemaHash(OfBytes(f), a) == StoreSchemaHash(OfBytes(f), b) && Pairs(a) != Pairs(b) ==>
              SchemaStream(a) != SchemaStream(b) && f(SchemaStream(a)) == f(SchemaStream(b))
  {
    SchemaStreamIdentifiesInventory(a, b);
    SchemaHashOfBytes(f, a);
    SchemaHashOfBytes(f, b);
  }

  lemma SchemaHashOfBytes(f: ByteHash, families: seq<FamilyIdentity>)
    ensures StoreSchemaHash(OfBytes(f), families) == f(SchemaStream(families))
  {
    DigestOfBytes(f, SchemaItem(Sort(FamilyKeys(families))));
  }

  // ---- The head binds the log ----

  ghost predicate LogFits(entries: seq<Entry>) {
    forall e :: e in entries ==> EntryFits(e)
  }

  lemma DigestOfBytes(f: ByteHash, item: Hashed)
    ensures OfBytes(f)(item) == f(StreamOf(item))
  {
  }

  lemma EntryDigestOfBytes(f: ByteHash, e: Entry)
    ensures EntryDigest(OfBytes(f), e) == f(EntryStream(e))
  {
    DigestOfBytes(f, EntryItem(e.(digest := ZeroDigest())));
    assert EntryStream(e.(digest := ZeroDigest())) == EntryStream(e);
  }

  /** Two entries of one digest are one entry, or their streams share a hash. */
  lemma DigestBindsEntry(f: ByteHash, x: Entry, y: Entry)
    requires EntryFits(x) && EntryFits(y) && x.digest == y.digest
    requires EntryDigest(OfBytes(f), x) == x.digest && EntryDigest(OfBytes(f), y) == y.digest
    ensures f(EntryStream(x)) == f(EntryStream(y))
    ensures x == y || EntryStream(x) != EntryStream(y)
  {
    EntryDigestOfBytes(f, x);
    EntryDigestOfBytes(f, y);
    if EntryStream(x) == EntryStream(y) { EntryDecodable(x, y); }
  }

  /** Two segments of one digest are one segment, or their streams share a hash:
      the one way a checkpoint can fail to load back is a collision. */
  lemma DigestBindsSegment(f: ByteHash, a: seq<ViewRow>, b: seq<ViewRow>)
    requires SegmentFits(a) && SegmentFits(b) && OfBytes(f)(SegmentItem(a)) == OfBytes(f)(SegmentItem(b))
    ensures f(SegmentStream(a)) == f(SegmentStream(b))
    ensures a == b || SegmentStream(a) != SegmentStream(b)
  {
    DigestOfBytes(f, SegmentItem(a));
    DigestOfBytes(f, SegmentItem(b));
    if SegmentStream(a) == SegmentStream(b) { SegmentDecodable(a, b); }
  }

  ghost predicate PreviousLinked(entries: seq<Entry>, head: Option<Digest>) {
    entries == [] ||
    var init := entries[..|entries| - 1];
    PreviousLinked(init, head) && entries[|entries| - 1].previous == HeadAfter(init, head)
  }

  lemma {:induction false} ChainedPrevious(h: Hash, entries: seq<Entry>, head: Option<Digest>)
    requires Chained(h, entries, head)
    ensures PreviousLinked(entries, head)
  {
    if entries != [] { ChainedPrevious(h, entries[..|entries| - 1], head); }
  }

  lemma {:induction false} ChainedSeals(h: Hash, entries: seq<Entry>, head: Option<Digest>, i: nat)
    requires Chained(h, entries, head) && i < |entries|
    ensures EntryDigest(h, entries[i]) == entries[i].digest
  {
    if i < |entries| - 1 { ChainedSeals(h, entries[..|entries| - 1], head, i); }
  }

  /** Chains from genesis with one head either coincide or hold, somewhere, two
      different entries of one digest. */
  lemma {:induction false} SameHeadDiffers(a: seq<Entry>, b: seq<Entry>) returns (i: nat, j: nat)
    requires PreviousLinked(a, None) && PreviousLinked(b, None)
    requires HeadAfter(a, None) == HeadAfter(b, None)
    ensures a == b || (i < |a| && j < |b| && a[i] != b[j] && a[i].digest == b[j].digest)
  {
    i, j := 0, 0;
    if a != [] && b != [] {
      var m, n := |a| - 1, |b| - 1;
      i, j := m, n;
      if a[m] == b[n] {
        i, j := SameHeadDiffers(a[..m], b[..n]);
        assert a == a[..m] + [a[m]] && b == b[..n] + [b[n]];
      }
    }
  }

  /** The head binds the log: two logs the fold accepts from genesis that end in
      one digest are one log, or the lemma returns an entry of each whose
      distinct streams share a hash. */
  lemma HeadBindsLog(f: ByteHash, a: seq<Entry>, b: seq<Entry>) returns (i: nat, j: nat)
    requires Fold(OfBytes(f), [], a, None).Ok? && Fold(OfBytes(f), [], b, None).Ok?
    requires LogFits(a) && LogFits(b)
    requires HeadAfter(a, None) == HeadAfter(b, None)
    ensures a == b || (i < |a| && j < |b| && EntryStream(a[i]) != EntryStream(b[j])
                       && f(EntryStream(a[i])) == f(EntryStream(b[j])))
  {
    var h := OfBytes(f);
    FoldMeaning(h, EMPTY_VIEW, a, None);
    FoldMeaning(h, EMPTY_VIEW, b, None);
    ChainedPrevious(h, a, None);
    ChainedPrevious(h, b, None);
    i, j := SameHeadDiffers(a, b);
    if a != b {
      ChainedSeals(h, a, None, i);
      ChainedSeals(h, b, None, j);
      DigestBindsEntry(f, a[i], b[j]);
    }
  }
}
