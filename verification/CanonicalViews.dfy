// The fold: the store's content is the last-write view of its versioned log.
module CanonicalViews {
  import opened ByteStrings
  import opened Errors
  import opened Versioning

  /** Last-write payloads, every key ever touched, and the first identity declared
      for each family version. */
  datatype View = View(
    rows: map<ViewKey, Bytes>,
    touched: set<ViewKey>,
    identities: map<FamilyKey, FamilyIdentity>)

  const EMPTY_VIEW := View(map[], {}, map[])

  // ---- One operation at a time ----

  function Declare(v: View, id: FamilyIdentity): View {
    if id.Key() in v.identities then v else v.(identities := v.identities[id.Key() := id])
  }

  function Touch(v: View, k: ViewKey): View { v.(touched := v.touched + {k}) }

  function ApplyCheckpointRow(v: View, row: ViewRow): Result<View> {
    match row.payload
    case Tombstone => Err(ReplayTombstonePayload(row.family.table))
    case Record(bytes) =>
      var w := Touch(Declare(v, row.family), row.At());
      Ok(w.(rows := w.rows[row.At() := bytes]))
  }

  function OperationAt(op: LogOperation): ViewKey
    requires op.key.Some?
  {
    ViewKey(op.family.family, op.family.schemaHash, op.key.value)
  }

  function ApplyOperation(v: View, op: LogOperation): Result<View> {
    if op.key.None? then Err(ReplayMissingKey(op.family.family))
    else
      var k := OperationAt(op);
      var w := Touch(Declare(v, op.family), k);
      match op.operation
      case Assert | Mutate =>
        if op.payload.Record? then Ok(w.(rows := w.rows[k := op.payload.bytes]))
        else Err(ReplayTombstonePayload(op.family.table))
      case Retract => Ok(w.(rows := w.rows - {k}))
      case _ => Err(ReplayUnsupportedOperation(RecordHead(op.operation)))
  }

  function ApplyCheckpointRows(v: View, rows: seq<ViewRow>): Result<View> {
    if rows == [] then Ok(v)
    else
      var before := ApplyCheckpointRows(v, rows[..|rows| - 1]);
      if before.Err? then before else ApplyCheckpointRow(before.value, rows[|rows| - 1])
  }

  function ApplyOperations(v: View, ops: seq<LogOperation>): Result<View> {
    if ops == [] then Ok(v)
    else
      var before := ApplyOperations(v, ops[..|ops| - 1]);
      if before.Err? then before else ApplyOperation(before.value, ops[|ops| - 1])
  }

  // ---- The digest chain ----

  /** The digest the next entry must name as its predecessor. */
  function HeadAfter(entries: seq<Entry>, head: Option<Digest>): Option<Digest> {
    if entries == [] then head else Some(entries[|entries| - 1].digest)
  }

  predicate Links(h: Hash, e: Entry, previous: Option<Digest>) {
    e.previous == previous && EntryDigest(h, e) == e.digest
  }

  function FoldEntries(h: Hash, v: View, entries: seq<Entry>, head: Option<Digest>): Result<View> {
    if entries == [] then Ok(v)
    else
      var init, last := entries[..|entries| - 1], entries[|entries| - 1];
      var before := FoldEntries(h, v, init, head);
      if before.Err? then before
      else if !Links(h, last, HeadAfter(init, head)) then Err(VersionedChainBroken(last.sequence))
      else ApplyOperations(before.value, last.operations)
  }

  /** Fold checkpoint rows, then chain-verified entries continuing from `head`. */
  function Fold(h: Hash, rows: seq<ViewRow>, entries: seq<Entry>, head: Option<Digest>): Result<View> {
    var v := ApplyCheckpointRows(EMPTY_VIEW, rows);
    if v.Err? then v else FoldEntries(h, v.value, entries, head)
  }

  // ---- What a fold means ----

  /** An operation the fold accepts, whatever the view. */
  predicate Applicable(op: LogOperation) {
    && op.key.Some?
    && match op.operation
       case Assert | Mutate => op.payload.Record?
       case Retract => true
       case _ => false
  }

  ghost predicate AllApplicable(ops: seq<LogOperation>) {
    ops == [] || (AllApplicable(ops[..|ops| - 1]) && Applicable(ops[|ops| - 1]))
  }

  ghost predicate Chained(h: Hash, entries: seq<Entry>, head: Option<Digest>) {
    entries == [] ||
    var init := entries[..|entries| - 1];
    Chained(h, init, head) && Links(h, entries[|entries| - 1], HeadAfter(init, head))
  }

  ghost predicate EntriesApplicable(entries: seq<Entry>) {
    entries == [] ||
    (EntriesApplicable(entries[..|entries| - 1]) && AllApplicable(entries[|entries| - 1].operations))
  }

  function OperationOnRows(rows: map<ViewKey, Bytes>, op: LogOperation): map<ViewKey, Bytes> {
    if !Applicable(op) then rows
    else if op.operation.Retract? then rows - {OperationAt(op)}
    else rows[OperationAt(op) := op.payload.bytes]
  }

  function OperationsOnRows(rows: map<ViewKey, Bytes>, ops: seq<LogOperation>): map<ViewKey, Bytes> {
    if ops == [] then rows
    else OperationOnRows(OperationsOnRows(rows, ops[..|ops| - 1]), ops[|ops| - 1])
  }

  function EntriesOnRows(rows: map<ViewKey, Bytes>, entries: seq<Entry>): map<ViewKey, Bytes> {
    if entries == [] then rows
    else OperationsOnRows(EntriesOnRows(rows, entries[..|entries| - 1]), entries[|entries| - 1].operations)
  }

  lemma ApplyMeaning(v: View, op: LogOperation)
    ensures ApplyOperation(v, op).Ok? <==> Applicable(op)
    ensures Applicable(op) ==> ApplyOperation(v, op).value.rows == OperationOnRows(v.rows, op)
  {
  }

  lemma {:induction false} OperationsMeaning(v: View, ops: seq<LogOperation>)
    ensures ApplyOperations(v, ops).Ok? <==> AllApplicable(ops)
    ensures ApplyOperations(v, ops).Ok? ==> ApplyOperations(v, ops).value.rows == OperationsOnRows(v.rows, ops)
  {
    if ops != [] {
      var init, last := ops[..|ops| - 1], ops[|ops| - 1];
      OperationsMeaning(v, init);
      var before := ApplyOperations(v, init);
      if before.Ok? { ApplyMeaning(before.value, last); }
    }
  }

  /** A fold succeeds exactly when the chain links and every operation is
      applicable, and its rows are the plain last-write rows: neither outcome
      depends on what else the view carries. */
  lemma {:induction false} FoldMeaning(h: Hash, v: View, entries: seq<Entry>, head: Option<Digest>)
    ensures FoldEntries(h, v, entries, head).Ok? <==> Chained(h, entries, head) && EntriesApplicable(entries)
    ensures FoldEntries(h, v, entries, head).Ok? ==>
              FoldEntries(h, v, entries, head).value.rows == EntriesOnRows(v.rows, entries)
  {
    if entries != [] {
      var init, last := entries[..|entries| - 1], entries[|entries| - 1];
      FoldMeaning(h, v, init, head);
      var before := FoldEntries(h, v, init, head);
      if before.Ok? { OperationsMeaning(before.value, last.operations); }
    }
  }

  lemma {:induction false} FoldConcat(h: Hash, v: View, a: seq<Entry>, b: seq<Entry>, head: Option<Digest>)
    ensures FoldEntries(h, v, a + b, head) ==
            (var first := FoldEntries(h, v, a, head);
             if first.Err? then first else FoldEntries(h, first.value, b, HeadAfter(a, head)))
  {
    if b == [] {
      assert a + b == a;
    } else {
      var init := b[..|b| - 1];
      assert (a + b)[..|a + b| - 1] == a + init;
      FoldConcat(h, v, a, init, head);
      assert HeadAfter(a + init, head) == HeadAfter(init, HeadAfter(a, head));
    }
  }

  // ---- Rows of a view ----

  predicate ViewKeyLeq(a: ViewKey, b: ViewKey) {
    if a.Family() == b.Family() then KeyLeq(a.key, b.key) else FamilyKeyLeq(a.Family(), b.Family())
  }

  lemma KeyOrder()
    ensures TotalOrder(KeyLeq)
  {
    LexOrder();
  }

  lemma ViewKeyOrder()
    ensures TotalOrder(ViewKeyLeq)
  {
    KeyOrder();
    FamilyKeyOrder();
  }

  /** View order: family name, schema hash, record key. */
  function InViewOrder(keys: set<ViewKey>): (r: seq<ViewKey>)
    ensures |r| == |keys|
    ensures forall k :: k in r <==> k in keys
  {
    ViewKeyOrder();
    InOrder(keys, ViewKeyLeq)
  }

  function FindIdentity(inventory: seq<FamilyIdentity>, fk: FamilyKey): Option<FamilyIdentity> {
    if inventory == [] then None
    else if inventory[0].Key() == fk then Some(inventory[0])
    else FindIdentity(inventory[1..], fk)
  }

  /** The identities the fold itself declared win over the supplied inventory. */
  function Resolve(v: View, inventory: seq<FamilyIdentity>, k: ViewKey): Result<FamilyIdentity> {
    if k.Family() in v.identities then Ok(v.identities[k.Family()])
    else
      match FindIdentity(inventory, k.Family())
      case Some(id) => Ok(id)
      case None => Err(FamilyUnknown(k.family))
  }

  function PayloadAt(v: View, k: ViewKey): Payload { if k in v.rows then Record(v.rows[k]) else Tombstone }

  function RowsFor(v: View, inventory: seq<FamilyIdentity>, keys: seq<ViewKey>): Result<seq<ViewRow>> {
    if keys == [] then Ok([])
    else
      var before := RowsFor(v, inventory, keys[..|keys| - 1]);
      var k := keys[|keys| - 1];
      if before.Err? then before
      else
        var id := Resolve(v, inventory, k);
        if id.Err? then Err(id.error) else Ok(before.value + [ViewRow(id.value, k.key, PayloadAt(v, k))])
  }

  /** Final rows to insert, and tombstones for keys touched but not kept. */
  datatype MaterializeRows = MaterializeRows(rows: seq<ViewRow>, cleared: seq<ViewRow>) {
    /** Application order: clears first, then inserts. */
    function Ordered(): seq<ViewRow> { cleared + rows }
  }

  function IntoRows(v: View, inventory: seq<FamilyIdentity>): Result<MaterializeRows> {
    var cleared := RowsFor(v, inventory, InViewOrder(v.touched - v.rows.Keys));
    if cleared.Err? then Err(cleared.error)
    else
      var rows := RowsFor(v, inventory, InViewOrder(v.rows.Keys));
      if rows.Err? then Err(rows.error) else Ok(MaterializeRows(rows.value, cleared.value))
  }

  /** What every fold guarantees of its view: the log is self-describing. */
  ghost predicate SelfDescribing(v: View) {
    && v.rows.Keys <= v.touched
    && (forall k :: k in v.touched ==> k.Family() in v.identities)
    && (forall fk :: fk in v.identities ==> v.identities[fk].Key() == fk)
  }

  lemma {:induction false} RowsForSelfDescribing(v: View, inventory: seq<FamilyIdentity>, keys: seq<ViewKey>)
    requires SelfDescribing(v) && forall k :: k in keys ==> k in v.touched
    ensures RowsFor(v, inventory, keys).Ok?
    ensures var r := RowsFor(v, inventory, keys).value;
            |r| == |keys| &&
            forall i :: 0 <= i < |r| ==>
              r[i].At() == keys[i] && r[i].family == v.identities[keys[i].Family()]
                  && r[i].payload == PayloadAt(v, keys[i])
  {
    if keys != [] {
      var init, k := keys[..|keys| - 1], keys[|keys| - 1];
      RowsForSelfDescribing(v, inventory, init);
      assert k in keys;
    }
  }

  lemma {:induction false} OperationsSelfDescribing(v: View, ops: seq<LogOperation>)
    requires SelfDescribing(v) && ApplyOperations(v, ops).Ok?
    ensures SelfDescribing(ApplyOperations(v, ops).value)
  {
    if ops != [] { OperationsSelfDescribing(v, ops[..|ops| - 1]); }
  }

  lemma {:induction false} EntriesSelfDescribing(h: Hash, v: View, entries: seq<Entry>, head: Option<Digest>)
    requires SelfDescribing(v) && FoldEntries(h, v, entries, head).Ok?
    ensures SelfDescribing(FoldEntries(h, v, entries, head).value)
  {
    if entries != [] {
      var init := entries[..|entries| - 1];
      EntriesSelfDescribing(h, v, init, head);
      OperationsSelfDescribing(FoldEntries(h, v, init, head).value, entries[|entries| - 1].operations);
    }
  }

  /** The last-write rows of a list of record rows. */
  function RowsMap(rows: seq<ViewRow>): map<ViewKey, Bytes>
    requires forall row :: row in rows ==> row.payload.Record?
  {
    if rows == [] then map[]
    else RowsMap(rows[..|rows| - 1])[rows[|rows| - 1].At() := rows[|rows| - 1].payload.bytes]
  }

  lemma {:induction false} CheckpointRowsMeaning(rows: seq<ViewRow>)
    requires forall row :: row in rows ==> row.payload.Record?
    ensures ApplyCheckpointRows(EMPTY_VIEW, rows).Ok?
    ensures var v := ApplyCheckpointRows(EMPTY_VIEW, rows).value;
            SelfDescribing(v) && v.touched == v.rows.Keys && v.rows == RowsMap(rows)
  {
    if rows != [] {
      assert rows[|rows| - 1] in rows;
      CheckpointRowsMeaning(rows[..|rows| - 1]);
    }
  }

  lemma {:induction false} RowsForRestores(v: View, inventory: seq<FamilyIdentity>, keys: seq<ViewKey>)
    requires SelfDescribing(v) && forall k :: k in keys ==> k in v.rows
    ensures RowsFor(v, inventory, keys).Ok?
    ensures var r := RowsFor(v, inventory, keys).value;
            && (forall row :: row in r ==>
                row.payload.Record? && row.At() in v.rows && row.family == v.identities[row.family.Key()])
            && (forall k :: k in RowsMap(r) <==> k in keys)
            && (forall k :: k in RowsMap(r) ==> RowsMap(r)[k] == v.rows[k])
  {
    if keys != [] {
      var init, k := keys[..|keys| - 1], keys[|keys| - 1];
      assert k in keys && keys == init + [k];
      RowsForRestores(v, inventory, init);
      var before, row := RowsFor(v, inventory, init).value, ViewRow(v.identities[k.Family()], k.key, Record(v.rows[k]));
      assert RowsFor(v, inventory, keys) == Ok(before + [row]);
      assert (before + [row])[..|before|] == before;
      assert row.At() == k;
    }
  }

  /** Any fold of record rows and accepted entries is self-describing, so
      resolving its keys never falls back on the catalog and never fails. */
  lemma FoldSelfDescribing(h: Hash, rows: seq<ViewRow>, entries: seq<Entry>, head: Option<Digest>,
                           inventory: seq<FamilyIdentity>)
    requires forall row :: row in rows ==> row.payload.Record?
    requires Fold(h, rows, entries, head).Ok?
    ensures SelfDescribing(Fold(h, rows, entries, head).value)
    ensures IntoRows(Fold(h, rows, entries, head).value, inventory).Ok?
  {
    CheckpointRowsMeaning(rows);
    EntriesSelfDescribing(h, ApplyCheckpointRows(EMPTY_VIEW, rows).value, entries, head);
    var v := Fold(h, rows, entries, head).value;
    RowsForSelfDescribing(v, inventory, InViewOrder(v.touched - v.rows.Keys));
    RowsForSelfDescribing(v, inventory, InViewOrder(v.rows.Keys));
  }

  // ---- Which identity a fold records ----

  function OperationFamilies(ops: seq<LogOperation>): seq<FamilyIdentity> {
    seq(|ops|, i requires 0 <= i < |ops| => ops[i].family)
  }

  function RowFamilies(rows: seq<ViewRow>): seq<FamilyIdentity> {
    seq(|rows|, i requires 0 <= i < |rows| => rows[i].family)
  }

  /** Every identity a log names, in log order. */
  function EntryFamilies(entries: seq<Entry>): seq<FamilyIdentity> {
    if entries == [] then []
    else EntryFamilies(entries[..|entries| - 1]) + OperationFamilies(entries[|entries| - 1].operations)
  }

  function Known(v: View, fk: FamilyKey): Option<FamilyIdentity> {
    if fk in v.identities then Some(v.identities[fk]) else None
  }

  /** The view records the first identity of the list for each family version. */
  ghost predicate RecordsFirst(v: View, named: seq<FamilyIdentity>) {
    forall fk :: Known(v, fk) == FindIdentity(named, fk)
  }

  lemma {:induction false} FindAppended(named: seq<FamilyIdentity>, id: FamilyIdentity, fk: FamilyKey)
    ensures FindIdentity(named + [id], fk) ==
            if FindIdentity(named, fk).Some? then FindIdentity(named, fk) else if id.Key() == fk then Some(id) else None
  {
    if named == [] {
      assert named + [id] == [id];
    } else {
      assert (named + [id])[1..] == named[1..] + [id];
      FindAppended(named[1..], id, fk);
    }
  }

  lemma DeclaresFirst(v: View, named: seq<FamilyIdentity>, id: FamilyIdentity)
    requires RecordsFirst(v, named)
    ensures RecordsFirst(Declare(v, id), named + [id])
  {
    forall fk ensures Known(Declare(v, id), fk) == FindIdentity(named + [id], fk) {
      FindAppended(named, id, fk);
      assert Known(v, fk) == FindIdentity(named, fk);
      assert Known(v, id.Key()) == FindIdentity(named, id.Key());
    }
  }

  lemma {:induction false} OperationsRecordFirst(v: View, named: seq<FamilyIdentity>, ops: seq<LogOperation>)
    requires RecordsFirst(v, named) && ApplyOperations(v, ops).Ok?
    ensures RecordsFirst(ApplyOperations(v, ops).value, named + OperationFamilies(ops))
  {
    if ops == [] {
      assert named + OperationFamilies(ops) == named;
    } else {
      var init, last := ops[..|ops| - 1], ops[|ops| - 1];
      OperationsRecordFirst(v, named, init);
      var before := ApplyOperations(v, init).value;
      DeclaresFirst(before, named + OperationFamilies(init), last.family);
      assert ApplyOperations(v, ops).value.identities == Declare(before, last.family).identities;
      assert named + OperationFamilies(ops) == named + OperationFamilies(init) + [last.family];
    }
  }

  lemma {:induction false} RowsRecordFirst(rows: seq<ViewRow>)
    requires ApplyCheckpointRows(EMPTY_VIEW, rows).Ok?
    ensures RecordsFirst(ApplyCheckpointRows(EMPTY_VIEW, rows).value, RowFamilies(rows))
  {
    if rows == [] {
      assert RowFamilies(rows) == [];
    } else {
      var init, last := rows[..|rows| - 1], rows[|rows| - 1];
      RowsRecordFirst(init);
      DeclaresFirst(ApplyCheckpointRows(EMPTY_VIEW, init).value, RowFamilies(init), last.family);
      assert RowFamilies(rows) == RowFamilies(init) + [last.family];
    }
  }

  lemma {:induction false} EntriesRecordFirst(h: Hash, v: View, named: seq<FamilyIdentity>, entries: seq<Entry>,
                                              head: Option<Digest>)
    requires RecordsFirst(v, named) && FoldEntries(h, v, entries, head).Ok?
    ensures RecordsFirst(FoldEntries(h, v, entries, head).value, named + EntryFamilies(entries))
  {
    if entries == [] {
      assert named + EntryFamilies(entries) == named;
    } else {
      var init, last := entries[..|entries| - 1], entries[|entries| - 1];
      EntriesRecordFirst(h, v, named, init, head);
      OperationsRecordFirst(FoldEntries(h, v, init, head).value, named + EntryFamilies(init), last.operations);
      assert named + EntryFamilies(entries) == named + EntryFamilies(init) + OperationFamilies(last.operations);
    }
  }

  /** A fold records for each family version the first identity its checkpoint rows
      and then its entries name, and none for a version they do not name. */
  lemma FirstIdentityStands(h: Hash, rows: seq<ViewRow>, entries: seq<Entry>, head: Option<Digest>, fk: FamilyKey)
    requires Fold(h, rows, entries, head).Ok?
    ensures Known(Fold(h, rows, entries, head).value, fk) ==
              FindIdentity(RowFamilies(rows) + EntryFamilies(entries), fk)
  {
    RowsRecordFirst(rows);
    EntriesRecordFirst(h, ApplyCheckpointRows(EMPTY_VIEW, rows).value, RowFamilies(rows), entries, head);
  }

  /** The rows of a view are a faithful image of it: folding them back, with no
      history at all, gives the same last-write rows. */
  lemma RowsRestoreView(v: View, inventory: seq<FamilyIdentity>)
    requires SelfDescribing(v)
    ensures IntoRows(v, inventory).Ok?
    ensures var rows := IntoRows(v, inventory).value.rows;
            && (forall row :: row in rows ==>
                  row.payload.Record? && row.At() in v.rows && row.family == v.identities[row.family.Key()])
            && ApplyCheckpointRows(EMPTY_VIEW, rows).Ok?
            && ApplyCheckpointRows(EMPTY_VIEW, rows).value.rows == v.rows
  {
    var keys := InViewOrder(v.rows.Keys);
    RowsForRestores(v, inventory, keys);
    RowsForSelfDescribing(v, inventory, InViewOrder(v.touched - v.rows.Keys));
    var rows := RowsFor(v, inventory, keys).value;
    CheckpointRowsMeaning(rows);
    assert RowsMap(rows) == v.rows;
  }

  /** Checkpointing is transparent: folding a prefix, keeping only its rows, and
      folding the suffix on top of those rows succeeds exactly when folding the
      whole history does, and leaves the same rows (hence the same view digest). */
  lemma CheckpointIsTransparent(h: Hash, rows: seq<ViewRow>, prefix: seq<Entry>, suffix: seq<Entry>,
                                head: Option<Digest>, inventory: seq<FamilyIdentity>)
    requires forall row :: row in rows ==> row.payload.Record?
    requires Fold(h, rows, prefix, head).Ok?
    ensures var mid := IntoRows(Fold(h, rows, prefix, head).value, inventory);
            var whole := Fold(h, rows, prefix + suffix, head);
            && mid.Ok?
            && var resumed := Fold(h, mid.value.rows, suffix, HeadAfter(prefix, head));
               && (whole.Ok? <==> resumed.Ok?)
               && (whole.Ok? ==> whole.value.rows == resumed.value.rows)
  {
    FoldSelfDescribing(h, rows, prefix, head, inventory);
    var start := ApplyCheckpointRows(EMPTY_VIEW, rows).value;
    var v := Fold(h, rows, prefix, head).value;
    RowsRestoreView(v, inventory);
    var u := ApplyCheckpointRows(EMPTY_VIEW, IntoRows(v, inventory).value.rows).value;
    FoldConcat(h, start, prefix, suffix, head);
    FoldMeaning(h, v, suffix, HeadAfter(prefix, head));
    FoldMeaning(h, u, suffix, HeadAfter(prefix, head));
  }

  function ViewDigest(h: Hash, v: View): Digest { h(ViewItem(v.rows)) }
}
