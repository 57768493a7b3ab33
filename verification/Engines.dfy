// The engine: one durable store, the inventory and session it holds in memory, and
// the write paths that change them in place.
module Engines {
  import opened ByteStrings
  import opened Errors
  import opened Versioning
  import opened CanonicalViews
  import opened ViewFolding
  import opened Checkpoints
  import opened Catalogs
  import opened Stores
  import opened Histories
  import opened Retention
  import opened Writes
  import opened WriteLaws
  import opened Rebuilding
  import opened Evolution
  import opened Staging
  import opened StagingLaws
  import opened StagingSafety
  import opened Recovery
  import opened Imports
  import opened Lifetimes
  import opened Sessions
  import opened Transactions

  // ---- Loops that may stop at the first refusal ----

  lemma {:induction false} RefusedLoad(segments: map<Digest, Segment>, references: seq<SegmentReference>, n: nat)
    requires n <= |references| && LoadSegments(segments, references[..n]).Err?
    ensures LoadSegments(segments, references) == LoadSegments(segments, references[..n])
  {
    if n == |references| {
      assert references[..n] == references;
    } else {
      assert references[..|references| - 1][..n] == references[..n];
      RefusedLoad(segments, references[..|references| - 1], n);
    }
  }

  lemma {:induction false} RefusedPrepare(tables: Tables, catalog: seq<FamilyIdentity>, ws: seq<Write>, n: nat)
    requires n <= |ws| && Prepare(tables, catalog, ws[..n]).Err?
    ensures Prepare(tables, catalog, ws) == Prepare(tables, catalog, ws[..n])
  {
    if n == |ws| {
      assert ws[..n] == ws;
    } else {
      assert ws[..|ws| - 1][..n] == ws[..n];
      RefusedPrepare(tables, catalog, ws[..|ws| - 1], n);
    }
  }

  lemma {:induction false} RefusedMaterialize(directory: Directory, tables: Tables, rows: seq<ViewRow>, n: nat)
    requires n <= |rows| && MaterializeAll(directory, tables, rows[..n]).Err?
    ensures MaterializeAll(directory, tables, rows) == MaterializeAll(directory, tables, rows[..n])
  {
    if n == |rows| {
      assert rows[..n] == rows;
    } else {
      assert rows[..|rows| - 1][..n] == rows[..n];
      RefusedMaterialize(directory, tables, rows[..|rows| - 1], n);
    }
  }

  lemma {:induction false} RefusedCarry(tables: Tables, table: Name, prior: Prior, texts: seq<Bytes>, n: nat)
    requires forall t :: t in texts ==> Coord(table, Domain(t)) in tables
    requires n <= |texts| && CarryRows(tables, table, prior, texts[..n]).Err?
    ensures CarryRows(tables, table, prior, texts) == CarryRows(tables, table, prior, texts[..n])
  {
    if n == |texts| {
      assert texts[..n] == texts;
    } else {
      assert texts[..|texts| - 1][..n] == texts[..n];
      RefusedCarry(tables, table, prior, texts[..|texts| - 1], n);
    }
  }

  lemma {:induction false} RefusedGroup(h: Hash, entries: seq<Entry>, head: Option<Digest>, sequence: nat,
                                        snapshot: nat, n: nat)
    requires n <= |entries| && VerifyGroup(h, entries[..n], head, sequence, snapshot).Err?
    ensures VerifyGroup(h, entries, head, sequence, snapshot) == VerifyGroup(h, entries[..n], head, sequence, snapshot)
  {
    if n == |entries| {
      assert entries[..n] == entries;
    } else {
      assert entries[..|entries| - 1][..n] == entries[..n];
      RefusedGroup(h, entries[..|entries| - 1], head, sequence, snapshot, n);
    }
  }

  lemma {:induction false} RefusedOps(directory: Directory, tables: Tables, ops: seq<LogOperation>, n: nat)
    requires n <= |ops| && MaterializeOps(directory, tables, ops[..n]).Err?
    ensures MaterializeOps(directory, tables, ops) == MaterializeOps(directory, tables, ops[..n])
  {
    if n == |ops| {
      assert ops[..n] == ops;
    } else {
      assert ops[..|ops| - 1][..n] == ops[..n];
      RefusedOps(directory, tables, ops[..|ops| - 1], n);
    }
  }

  /** Every write against the same pre-state, and no key twice. */
  method PrepareWrites(tables: Tables, catalog: seq<FamilyIdentity>, ws: seq<Write>) returns (r: Result<seq<Prepared>>)
    ensures r == Prepare(tables, catalog, ws)
  {
    var keys: set<(Name, RecordKey)> := {};
    var ps: seq<Prepared> := [];
    for i := 0 to |ws|
      invariant keys == Coordinates(ws[..i])
      invariant Prepare(tables, catalog, ws[..i]) == Ok(ps)
    {
      assert ws[..i + 1][..i] == ws[..i];
      var w := ws[i];
      if (w.table, w.key) in keys {
        RefusedPrepare(tables, catalog, ws, i + 1);
        return Err(DuplicateWriteKey(w.table, Text(w.key)));
      }
      var p := PrepareOne(tables, catalog, w);
      if p.Err? {
        RefusedPrepare(tables, catalog, ws, i + 1);
        return Err(p.error);
      }
      CoordinatesOneMore(ws[..i], w);
      assert ws[..i + 1] == ws[..i] + [w];
      keys := keys + {(w.table, w.key)};
      ps := ps + [p.value];
    }
    assert ws[..|ws|] == ws;
    return Ok(ps);
  }

  lemma {:induction false} StagedKeyed(tables: Tables, s: Session, catalog: seq<FamilyIdentity>, ws: seq<Write>)
    requires StagedPrepare(tables, s, catalog, ws).Ok?
    ensures var ps := StagedPrepare(tables, s, catalog, ws).value; forall i :: 0 <= i < |ps| ==> ps[i].op.key.Some?
  {
    if ws != [] { StagedKeyed(tables, s, catalog, ws[..|ws| - 1]); }
  }

  lemma CommitIs(h: Hash, st: Storage, catalog: seq<FamilyIdentity>, ops: seq<LogOperation>, tables: Tables,
                 identified: map<Name, nat>)
    ensures var landed, committed := st.(tables := tables), Commit(h, st, catalog, ops, tables, identified);
            && (st.policy.Some? ==>
                committed == Logged(landed, NextEntry(h, st, catalog, ops)).(identified := identified))
            && (st.policy.None? ==>
                  var c := CommitEntry(Sequence(st) + 1, Snapshot(st) + 1, ProjectOperations(ops));
                  committed == landed.(commits := st.commits + [c], commitCount := st.commitCount + 1,
                                       sequence := Some(c.sequence), snapshot := Some(c.snapshot),
                                       identified := identified))
  {
  }

  lemma CommitCounters(h: Hash, st: Storage, catalog: seq<FamilyIdentity>, ops: seq<LogOperation>, tables: Tables,
                       identified: map<Name, nat>)
    ensures Commit(h, st, catalog, ops, tables, identified) ==
              Commit(h, st, catalog, ops, tables, st.identified).(identified := identified)
  {
  }

  /** Fold the log and list its rows. */
  method FoldAndList(h: Hash, rows: seq<ViewRow>, entries: seq<Entry>, head: Option<Digest>,
                     inventory: seq<FamilyIdentity>)
    returns (r: Result<FoldedRows>)
    ensures r == FoldRows(h, rows, entries, head, inventory)
  {
    var view := FoldLog(h, rows, entries, head);
    if view.Err? { return Err(view.error); }
    var listed := Materializable(view.value, inventory);
    if listed.Err? { return Err(listed.error); }
    return Ok(FoldedRows(view.value.Value(), listed.value));
  }

  class Engine {
    var storage: Storage
    const catalog: Catalog
    var staging: StagingSession?
    var fault: Option<Fault>
    /** Every change handed to subscribers, in order. */
    var delivered: seq<Delta>

    constructor (storage: Storage)
      ensures this.storage == storage && fresh(catalog) && catalog.registrations == CatalogRows(storage.registrations)
      ensures staging == null && fault == None && delivered == []
    {
      this.storage := storage;
      this.catalog := new Catalog(CatalogRows(storage.registrations));
      staging, fault, delivered := null, None, [];
    }

    /** The commit sequence reads report: the session's while one is engaged. */
    function CurrentCommitSequence(): nat
      reads this, staging
    {
      if staging != null then staging.latestSequence else Sequence(storage)
    }

    // ---- Checkpoints and history ----

    method LoadLatest(h: Hash) returns (r: Result<Option<Checkpoint>>)
      ensures r == LatestCheckpoint(h, storage)
    {
      if storage.latestCheckpoint.None? { return Ok(None); }
      var sequence := storage.latestCheckpoint.value;
      if sequence !in storage.checkpoints { return Err(CheckpointRowMissing(sequence)); }
      var metadata := storage.checkpoints[sequence];
      var segments: seq<Segment> := [];
      for i := 0 to |metadata.segments|
        invariant LoadSegments(storage.segments, metadata.segments[..i]) == Ok(segments)
      {
        var digest := metadata.segments[i].digest;
        assert metadata.segments[..i + 1][..i] == metadata.segments[..i];
        if digest !in storage.segments {
          RefusedLoad(storage.segments, metadata.segments, i + 1);
          return Err(SegmentMissing(digest));
        }
        segments := segments + [storage.segments[digest]];
      }
      assert metadata.segments[..|metadata.segments|] == metadata.segments;
      var verified := VerifyCheckpoint(h, Checkpoint(metadata, segments));
      if verified.Err? { return Err(verified.error); }
      return Ok(Some(Checkpoint(metadata, segments)));
    }

    /** Fold the log past the latest checkpoint, chunk the rows, and publish. */
    method CutNow(h: Hash, previous: Option<Checkpoint>) returns (r: Result<Checkpoint>)
      requires storage.policy.Some?
      ensures r == CutOver(h, storage, catalog.registrations, previous)
    {
      var b := BaseOf(previous);
      var entries := EntriesFrom(storage.versioned, b.after + 1);
      if entries == [] { return Err(CheckpointNothingToCover); }
      var folded := FoldAndList(h, b.rows, entries, b.head, catalog.registrations);
      if folded.Err? { return Err(folded.error); }
      var segments := ChunkSegments(folded.value.rows.rows);
      return Ok(Checkpoint(CutMetadata(h, storage, catalog.registrations, previous, entries, folded.value.view,
                                       segments), segments));
    }

    method PublishNow(h: Hash, k: Checkpoint)
      modifies this`storage
      ensures storage == PutCheckpoint(h, old(storage), k)
    {
      var txn := storage;
      for i := 0 to |k.segments|
        invariant txn == storage.(segments := StoreSegments(h, storage.segments, k.segments[..i]))
      {
        assert k.segments[..i + 1][..i] == k.segments[..i];
        txn := txn.(segments := txn.segments[SegmentDigest(h, k.segments[i]) := k.segments[i]]);
      }
      assert k.segments[..|k.segments|] == k.segments;
      storage := txn.(checkpoints := txn.checkpoints[k.metadata.sequence := k.metadata],
                      latestCheckpoint := Some(k.metadata.sequence));
    }

    method CheckpointNow(h: Hash) returns (r: Result<()>)
      modifies this`storage
      ensures r.Ok? ==> WriteCheckpoint(h, old(storage), catalog.registrations) == Ok(storage)
      ensures r.Err? ==>
                WriteCheckpoint(h, old(storage), catalog.registrations) == Err(r.error) && storage == old(storage)
    {
      if storage.policy.None? { return Err(VersioningNotEnabled); }
      if storage.commitCount != storage.versionedCount {
        return Err(VersionedLogIncomplete(storage.commitCount, storage.versionedCount));
      }
      var previous := LoadLatest(h);
      if previous.Err? { return Err(previous.error); }
      var k := CutNow(h, previous.value);
      if k.Err? { return Err(k.error); }
      PublishNow(h, k.value);
      return Ok(());
    }

    /** A verified checkpoint that covers `current`, cut in its own write if needed. */
    method EnsureCovered(h: Hash, current: nat) returns (r: Result<Checkpoint>)
      modifies this`storage
      ensures Outcome(r, storage) == EnsureCovering(h, old(storage), catalog.registrations, current)
    {
      var latest := LoadLatest(h);
      if latest.Err? { return Err(latest.error); }
      if latest.value.Some? && latest.value.value.metadata.last >= current { return Ok(latest.value.value); }
      var written := CheckpointNow(h);
      if written.Err? { return Err(written.error); }
      var reloaded := LoadLatest(h);
      if reloaded.Err? { return Err(reloaded.error); }
      if reloaded.value.None? { return Err(CheckpointNothingToCover); }
      return Ok(reloaded.value.value);
    }

    method CompactVersionedHistory(h: Hash, maximum: nat, ack: Acknowledgement) returns (r: Result<Compaction>)
      modifies this`storage
      ensures Outcome(r, storage) ==
              CompactHistory(h, old(storage), catalog.registrations, old(CurrentCommitSequence()), maximum, ack)
    {
      ghost var start := storage;
      var valid := ValidateAcknowledgement(storage, ack);
      if valid.Err? { return Err(valid.error); }
      var before := |storage.versioned|;
      if before <= maximum {
        var latest := LoadLatest(h);
        if latest.Err? { return Err(latest.error); }
        return Ok(Compaction(0, before, CheckpointSequence(latest.value)));
      }
      var covering := EnsureCovered(h, CurrentCommitSequence());
      if covering.Err? { return Err(covering.error); }
      var k := covering.value;
      var mirrored := MirrorCovers(storage, ack, k.metadata.last);
      if mirrored.Err? { return Err(mirrored.error); }
      var commitKeys := KeysThrough(storage.commits, CommitRowSequence, k.metadata.last);
      var versionedKeys := KeysThrough(storage.versioned, EntryRowSequence, k.metadata.last);
      var outboxKeys := KeysThrough(storage.outbox, OutboxRowSequence, k.metadata.last);
      var txn := new Transaction(storage);
      txn.CompactThrough(h, k, commitKeys, versionedKeys, outboxKeys);
      storage := txn.st;
      return Ok(Compaction(Saturating(before, storage.versionedCount), storage.versionedCount,
                           Some(k.metadata.sequence)));
    }

    method CompactConfiguredHistory(h: Hash) returns (r: Result<Compaction>)
      modifies this`storage
      ensures Outcome(r, storage) ==
                CompactConfigured(h, old(storage), catalog.registrations, old(CurrentCommitSequence()))
    {
      if storage.policy.None? { return Err(VersioningNotEnabled); }
      var policy := storage.policy.value;
      if |storage.versioned| <= policy.maximumLive {
        var latest := LoadLatest(h);
        if latest.Err? { return Err(latest.error); }
        return Ok(Compaction(0, |storage.versioned|, CheckpointSequence(latest.value)));
      }
      var ack := ConfiguredAcknowledgement(storage, CurrentCommitSequence());
      if ack.Err? { return Err(ack.error); }
      r := CompactVersionedHistory(h, policy.maximumLive, ack.value);
    }

    method MaintainHistory(h: Hash) returns (r: Result<()>)
      modifies this`storage
      ensures Outcome(r, storage) == Maintain(h, old(storage), catalog.registrations, old(CurrentCommitSequence()))
    {
      if storage.policy.None? { return Ok(()); }
      var out := CompactConfiguredHistory(h);
      return if out.Err? then Err(out.error) else Ok(());
    }

    // ---- Direct writes ----

    /** The one transaction of a direct commit. */
    method CommitOperations(h: Hash, ops: seq<LogOperation>, byText: bool, identified: map<Name, nat>)
      requires Ordered(storage) && forall op :: op in ops ==> op.key.Some?
      modifies this`storage
      ensures var tables := old(storage).tables;
              storage == Commit(h, old(storage), catalog.registrations, ops,
                                if byText then TextsOnTables(tables, ops)
                                else OperationsOnTables(tables, ops), identified)
    {
      var txn := new Transaction(storage);
      txn.LandOperations(ops, byText);
      LogOperations(h, txn, ops);
      CommitCounters(h, storage, catalog.registrations, ops, if byText then TextsOnTables(storage.tables, ops)
                     else OperationsOnTables(storage.tables, ops),
                     identified);
      storage := txn.st.(identified := identified);
    }

    /** The log half of a commit, in the transaction that holds its rows. */
    method LogOperations(h: Hash, txn: Transaction, ops: seq<LogOperation>)
      requires Ordered(storage) && txn.st == storage.(tables := txn.st.tables)
      modifies txn
      ensures txn.st == Commit(h, storage, catalog.registrations, ops, old(txn.st).tables, storage.identified)
    {
      CommitIs(h, storage, catalog.registrations, ops, txn.st.tables, storage.identified);
      if storage.policy.Some? {
        txn.AppendBoth(NextEntry(h, storage, catalog.registrations, ops));
      } else {
        txn.AppendPlain(CommitEntry(Sequence(storage) + 1, Snapshot(storage) + 1, ProjectOperations(ops)));
      }
    }

    /** Commit a validated call, then hand its changes to subscribers. */
    method CommitPlanned(h: Hash, call: Call, ps: seq<Prepared>) returns (receipt: Receipt)
      requires Ordered(storage) && forall i :: 0 <= i < |ps| ==> ps[i].op.key.Some?
      modifies this`storage, this`delivered
      ensures var done := CommitPlan(h, old(storage), catalog.registrations, call, ps);
              storage == done.storage && done.result == Ok(receipt) && delivered == old(delivered) + done.deltas
    {
      var ops := OpsOf(ps);
      receipt := ReceiptFor(call, ops, Sequence(storage) + 1, Snapshot(storage) + 1);
      var deltas := Delivered(call, ps, Snapshot(storage) + 1);
      CommitOperations(h, ops, IsDomainCall(call), LandedCounters(storage.identified, call));
      delivered := delivered + deltas;
    }

    /** Commit a planned domain call, then maintain history: a maintenance failure is
        reported although the commit is durable. */
    method FinishDomainCall(h: Hash, call: Call, ps: seq<Prepared>) returns (r: Result<Receipt>)
      requires staging == null && IsDomainCall(call)
      requires Ordered(storage) && Plan(storage.tables, storage.identified, catalog.registrations, call) == Ok(ps)
      modifies this`storage, this`delivered
      ensures var done := Perform(h, old(storage), catalog.registrations, call);
              r == done.result && storage == done.storage && delivered == old(delivered) + done.deltas
    {
      DirectIs(h, storage, catalog.registrations, call);
      var receipt := CommitPlanned(h, call, ps);
      var maintained := MaintainHistory(h);
      return if maintained.Err? then Err(maintained.error) else Ok(receipt);
    }

    method WriteKeyed(h: Hash, w: Write) returns (r: Result<Receipt>)
      requires Ordered(storage)
      modifies this`storage, this`delivered, staging
      ensures staging == null ==>
                var done := Perform(h, old(storage), catalog.registrations, Keyed(w));
                r == done.result && storage == done.storage && delivered == old(delivered) + done.deltas
      ensures staging != null ==>
                var staged := StagedCall(h, old(storage), catalog.registrations, old(staging.Value()), Keyed(w));
                r == staged.result && staging.Value() == staged.session && storage == old(storage)
                    && delivered == old(delivered)
    {
      if staging != null {
        var plan := PrepareStagedWrites(storage.tables, staging, catalog.registrations, [w]);
        if plan.Err? { return Err(plan.error); }
        r := BufferCallNow(h, Keyed(w), plan.value);
      } else {
        var plan := PrepareWrites(storage.tables, catalog.registrations, [w]);
        DirectIs(h, storage, catalog.registrations, Keyed(w));
        if plan.Err? { return Err(plan.error); }
        r := FinishDomainCall(h, Keyed(w), plan.value);
      }
    }

    /** Buffer a validated call in the engaged session. */
    method BufferCallNow(h: Hash, call: Call, ps: seq<Prepared>) returns (r: Result<Receipt>)
      requires staging != null && forall i :: 0 <= i < |ps| ==> ps[i].op.key.Some?
      modifies staging
      ensures var staged := BufferCall(h, storage, old(staging.Value()), call, ps);
              r == staged.result && staging.Value() == staged.session
    {
      if call.AssertIdentified? {
        var _ := staging.MintIdentifier(storage.identified, call.table);
      }
      var sequence, snapshot := BufferPrepared(h, staging, ps);
      return Ok(ReceiptFor(call, OpsOf(ps), sequence, snapshot));
    }

    method CommitBatch(h: Hash, table: Name, ops: seq<BatchOperation>) returns (r: Result<Receipt>)
      requires Ordered(storage)
      modifies this`storage, this`delivered, staging
      ensures staging == null ==>
                var done := Perform(h, old(storage), catalog.registrations, Batch(table, ops));
                r == done.result && storage == done.storage && delivered == old(delivered) + done.deltas
      ensures staging != null ==>
                var staged :=
                    StagedCall(h, old(storage), catalog.registrations, old(staging.Value()), Batch(table, ops));
                r == staged.result && staging.Value() == staged.session && storage == old(storage)
                    && delivered == old(delivered)
    {
      DirectIs(h, storage, catalog.registrations, Batch(table, ops));
      if FindTable(catalog.registrations, table).None? { return Err(TableNotRegistered(table)); }
      if ops == [] { return Err(EmptyCommit(table)); }
      if staging != null {
        var plan := PrepareStagedWrites(storage.tables, staging, catalog.registrations, InTable(table, ops));
        if plan.Err? { return Err(plan.error); }
        StagedKeyed(storage.tables, staging.Value(), catalog.registrations, InTable(table, ops));
        r := BufferCallNow(h, Batch(table, ops), plan.value);
      } else {
        var plan := PrepareWrites(storage.tables, catalog.registrations, InTable(table, ops));
        if plan.Err? { return Err(plan.error); }
        r := FinishDomainCall(h, Batch(table, ops), plan.value);
      }
    }

    /** The identified calls: no maintenance, no delta. */
    method WriteIdentified(h: Hash, call: Call) returns (r: Result<Receipt>)
      requires Ordered(storage) && !IsDomainCall(call)
      modifies this`storage, this`delivered, staging
      ensures staging == null ==>
                var done := Perform(h, old(storage), catalog.registrations, call);
                r == done.result && storage == done.storage && delivered == old(delivered) + done.deltas
      ensures staging != null ==>
                var staged := StagedCall(h, old(storage), catalog.registrations, old(staging.Value()), call);
                r == staged.result && staging.Value() == staged.session && storage == old(storage)
                    && delivered == old(delivered)
    {
      DirectIs(h, storage, catalog.registrations, call);
      if staging != null {
        var plan := PlanStagedIdentified(call);
        if plan.Err? { return Err(plan.error); }
        r := BufferCallNow(h, call, plan.value);
      } else {
        var plan := Plan(storage.tables, storage.identified, catalog.registrations, call);
        if plan.Err? { return Err(plan.error); }
        var receipt := CommitPlanned(h, call, plan.value);
        return Ok(receipt);
      }
    }

    method PlanStagedIdentified(call: Call) returns (r: Result<seq<Prepared>>)
      requires staging != null && !IsDomainCall(call)
      ensures r == StagedPlan(storage.tables, storage.identified, staging.Value(), catalog.registrations, call)
      ensures r.Ok? ==> forall i :: 0 <= i < |r.value| ==> r.value[i].op.key.Some?
    {
      var family := FindTable(catalog.registrations, call.table);
      if family.None? { return Err(TableNotRegistered(call.table)); }
      match call {
        case AssertIdentified(table, record) =>
          var key := Identifier(NextMint(staging.Value(), storage.identified, table));
          return Ok([Prepared(LogOperation(Assert, family.value, Some(key), Record(record)), record)]);
        case MutateIdentified(table, id, record) =>
          var key := Identifier(id);
          var present := staging.KeyPresent(Coord(table, key) in storage.tables, table, key);
          if !present { return Err(RecordNotFound(table, Decimal(id))); }
          return Ok([Prepared(LogOperation(Mutate, family.value, Some(key), Record(record)), record)]);
        case RetractIdentified(table, id) =>
          var key := Identifier(id);
          var removed := staging.PreImageFor(At(storage.tables, Coord(table, key)), table, key);
          if removed.None? { return Err(RecordNotFound(table, Decimal(id))); }
          return Ok([Prepared(LogOperation(Retract, family.value, Some(key), Tombstone), removed.value)]);
      }
    }

    /** Any write, direct or buffered. */
    method Issue(h: Hash, call: Call) returns (r: Result<Receipt>)
      requires Ordered(storage)
      modifies this`storage, this`delivered, staging
      ensures staging == null ==>
                var done := Perform(h, old(storage), catalog.registrations, call);
                r == done.result && storage == done.storage && delivered == old(delivered) + done.deltas
      ensures staging != null ==>
                var staged := StagedCall(h, old(storage), catalog.registrations, old(staging.Value()), call);
                r == staged.result && staging.Value() == staged.session && storage == old(storage)
                    && delivered == old(delivered)
    {
      match call {
        case Keyed(w) => r := WriteKeyed(h, w);
        case Batch(table, ops) => r := CommitBatch(h, table, ops);
        case _ => r := WriteIdentified(h, call);
      }
    }

    /** A heterogeneous group. An engaged session does not buffer it. */
    method CommitGroup(h: Hash, ws: seq<Write>) returns (r: Result<Receipt>)
      requires Ordered(storage)
      modifies this`storage, this`delivered
      ensures var engaged := if staging != null then Some(staging.latestSequence) else None;
              var done := PerformAtomic(h, old(storage), catalog.registrations, engaged, ws);
              r == done.result && storage == done.storage && delivered == old(delivered) + done.deltas
    {
      if ws == [] { return Err(EmptyAtomicCommit); }
      var plan := PrepareWrites(storage.tables, catalog.registrations, ws);
      if plan.Err? { return Err(plan.error); }
      PrepareKeyed(storage.tables, catalog.registrations, ws);
      var ops := OpsOf(plan.value);
      var receipt := Receipt([], None, Sequence(storage) + 1, Snapshot(storage) + 1, |ops|);
      var deltas := DeltasOf(plan.value, Snapshot(storage) + 1);
      CommitOperations(h, ops, true, storage.identified);
      delivered := delivered + deltas;
      var maintained := MaintainHistory(h);
      return if maintained.Err? then Err(maintained.error) else Ok(receipt);
    }

    // ---- Registration and evolution ----

    method CarryForward(table: Name, prior: Prior) returns (r: Result<seq<Row>>)
      ensures r == CarryRows(storage.tables, table, prior, TextKeys(storage.tables, table))
    {
      r := CarryTexts(storage.tables, table, prior, TextKeys(storage.tables, table));
    }

    /** Rewritten rows, log entry and catalog row, in one write. */
    method PersistEvolved(h: Hash, stored: FamilyIdentity, evolved: FamilyIdentity, rows: seq<Row>)
      requires Ordered(storage)
      modifies this`storage
      ensures storage == PersistEvolution(h, old(storage), catalog.registrations, stored, evolved, rows)
    {
      var registrations := storage.registrations[evolved.table := evolved];
      if rows == [] {
        storage := storage.(registrations := registrations);
        return;
      }
      var txn := new Transaction(storage);
      for i := 0 to |rows|
        invariant storage == old(storage)
        invariant txn.st == storage.(tables := RewriteRows(storage.tables, evolved.table, rows[..i]))
      {
        assert rows[..i + 1][..i] == rows[..i];
        txn.InsertRow(Coord(evolved.table, Domain(rows[i].text)), rows[i].record);
      }
      assert rows[..|rows|] == rows;
      LogOperations(h, txn, Retracts(stored, rows) + Asserts(evolved, rows));
      storage := txn.st.(registrations := registrations);
    }

    /** The in-memory catalog moves first, and moves back on any failure. */
    method EvolveRegistered(h: Hash, stored: FamilyIdentity, d: Descriptor, prior: Prior) returns (r: Result<()>)
      requires Ordered(storage)
      modifies this`storage, catalog
      ensures Registered(r, storage, catalog.registrations) ==
              EvolveFamily(h, old(storage), old(catalog.registrations), old(Engaged()), stored, d, prior)
    {
      var rows := CarryForward(d.family.table, prior);
      if rows.Err? { return Err(rows.error); }
      var moved := catalog.Evolve(d.family.table, d.family);
      if moved.Err? { return Err(moved.error); }
      PersistEvolved(h, stored, d.family, rows.value);
      if rows.value == [] { return Ok(()); }
      var maintained := MaintainHistory(h);
      if maintained.Ok? { return Ok(()); }
      var _ := catalog.Evolve(d.family.table, stored);
      return Err(maintained.error);
    }

    /** The commit sequence an open session reports. */
    function Engaged(): Option<nat>
      reads this, staging
    {
      if staging != null then Some(staging.latestSequence) else None
    }

    method RegisterFamilyTable(h: Hash, d: Descriptor) returns (r: Result<()>)
      requires Ordered(storage)
      modifies this`storage, catalog
      ensures Registered(r, storage, catalog.registrations) ==
              RegisterTable(h, old(storage), old(catalog.registrations), old(Engaged()), d)
    {
      var state := FamilyRegistrationState(catalog.registrations, d.family);
      match state {
        case Ok(Existing) => return Ok(());
        case Ok(New) =>
          storage := storage.(registrations := storage.registrations[d.family.table := d.family]);
          var inserted := catalog.Insert(d.family);
          return if inserted.Ok? then Ok(()) else Err(inserted.error);
        case Err(error) =>
          if !error.FamilyIdentityMismatch? { return Err(error); }
          var stored := FindTable(catalog.registrations, d.family.table).value;
          var step := StepFor(d, stored);
          if step.None? { return Err(error); }
          r := EvolveRegistered(h, stored, d, step.value);
      }
    }

    method RegisterIdentifiedFamily(id: FamilyIdentity) returns (r: Result<()>)
      modifies this`storage, catalog
      ensures Registered(r, storage, catalog.registrations) ==
                RegisterIdentified(old(storage), old(catalog.registrations), id)
    {
      var state := FamilyRegistrationState(catalog.registrations, id);
      if state.Err? { return Err(state.error); }
      if state.value.Existing? { return Ok(()); }
      storage := storage.(registrations := storage.registrations[id.table := id],
                          identified := storage.identified[id.table := 1]);
      var inserted := catalog.Insert(id);
      return if inserted.Ok? then Ok(()) else Err(inserted.error);
    }

    // ---- Rebuild ----

    /** Re-materialize every folded row in one write. */
    method RebuildFromLog(h: Hash, directory: Directory) returns (r: Result<RebuildReceipt>)
      modifies this`storage
      ensures Outcome(r, storage) == Rebuild(h, old(storage), catalog.registrations, directory)
    {
      if storage.policy.None? { return Err(VersioningNotEnabled); }
      if storage.commitCount != storage.versionedCount {
        return Err(VersionedLogIncomplete(storage.commitCount, storage.versionedCount));
      }
      var latest := LoadLatest(h);
      if latest.Err? { return Err(latest.error); }
      r := RebuildOverCheckpoint(h, directory, latest.value);
    }

    method RebuildOverCheckpoint(h: Hash, directory: Directory, c: Option<Checkpoint>)
      returns (r: Result<RebuildReceipt>)
      modifies this`storage
      ensures Outcome(r, storage) == RebuildOver(h, old(storage), catalog.registrations, directory, c)
    {
      var b := BaseOf(c);
      var entries := EntriesFrom(storage.versioned, b.after + 1);
      var folded := FoldAndList(h, b.rows, entries, b.head, catalog.registrations);
      if folded.Err? { return Err(folded.error); }
      var m := folded.value.rows;
      var landed := LandRows(directory, storage.tables, m.Ordered());
      if landed.Err? { return Err(landed.error); }
      storage := storage.(tables := landed.value);
      return Ok(RebuildReceipt(ViewDigest(h, folded.value.view), |m.rows|, |m.cleared|, |entries|));
    }

    // ---- Staging ----

    method BeginStagedGroup(h: Hash) returns (r: Result<()>)
      modifies this`staging
      ensures var began := Begin(h, storage, catalog.registrations, old(SessionValue()));
              if began.Ok? then r.Ok? && staging != null && fresh(staging) && staging.Value() == began.value
              else r == Err(began.error) && staging == old(staging)
    {
      if storage.policy.None? { return Err(VersioningNotEnabled); }
      if staging != null { return Err(StagingSessionEngaged); }
      if storage.slot.Some? { return Err(StagingSlotOccupied); }
      staging := new StagingSession(StagingBase(storage.head, Sequence(storage), Snapshot(storage), []),
                                    storage.policy.value.storeName, StoreSchemaHash(h, catalog.registrations));
      return Ok(());
    }

    function SessionValue(): Option<Session>
      reads this, staging
    {
      if staging != null then Some(staging.Value()) else None
    }

    /** The session ends either way; nothing but the slot may change. */
    method ParkStagedGroup() returns (r: Result<Option<StageReceipt>>)
      modifies this`storage, this`staging
      ensures Outcome(r, storage) == Park(old(storage), old(SessionValue())) && staging == null
    {
      var session := staging;
      staging := null;
      if session == null { return Err(StagingSessionNotEngaged); }
      if session.entries == [] { return Ok(None); }
      if !BaseCurrent(storage, session.base) { return Err(StagingBaseMoved(Sequence(storage))); }
      if storage.slot.Some? { return Err(StagingSlotOccupied); }
      var group := StagedGroup(session.entries, session.preImages);
      storage := storage.(slot := Some(group));
      return Ok(Some(StageReceiptOf(group)));
    }

    method AbandonStagedGroup()
      modifies this`staging
      ensures staging == null
    {
      staging := null;
    }

    method DiscardStagedGroup() returns (r: Result<DiscardReceipt>)
      modifies this`storage
      ensures Outcome(r, storage) == Discard(old(storage))
    {
      if storage.slot.None? { return Err(StagingSlotEmpty); }
      var group := storage.slot.value;
      if group.entries == [] { return Err(StagingSlotEmpty); }
      storage := storage.(slot := None);
      return Ok(DiscardReceipt(group.entries[|group.entries| - 1].digest, |group.entries|));
    }

    /** The parked entries still continue this store, link by link. */
    method VerifyEntries(h: Hash, entries: seq<Entry>) returns (r: Result<()>)
      ensures r == VerifyGroup(h, entries, storage.head, Sequence(storage), Snapshot(storage))
    {
      var previous, sequence, snapshot := storage.head, Sequence(storage), Snapshot(storage);
      for i := 0 to |entries|
        invariant VerifyGroup(h, entries[..i], storage.head, Sequence(storage), Snapshot(storage)) == Ok(())
        invariant previous == HeadAfter(entries[..i], storage.head)
        invariant sequence == Sequence(storage) + i && snapshot == Snapshot(storage) + i
      {
        assert entries[..i + 1][..i] == entries[..i];
        var e := entries[i];
        sequence, snapshot := sequence + 1, snapshot + 1;
        if e.previous != previous || e.sequence != sequence || e.snapshot != snapshot {
          RefusedGroup(h, entries, storage.head, Sequence(storage), Snapshot(storage), i + 1);
          return Err(StagingBaseMoved(Sequence(storage)));
        }
        if EntryDigest(h, e) != e.digest {
          RefusedGroup(h, entries, storage.head, Sequence(storage), Snapshot(storage), i + 1);
          return Err(StagedGroupDigestMismatch(e.sequence));
        }
        previous := Some(e.digest);
      }
      assert entries[..|entries|] == entries;
      return Ok(());
    }

    /** Announce the group entry by entry, operation by operation. */
    method AnnounceGroup(group: StagedGroup)
      modifies this`delivered
      ensures delivered == old(delivered) + Announce(group.preImages, group.entries)
    {
      for i := 0 to |group.entries|
        invariant delivered == old(delivered) + Announce(group.preImages, group.entries[..i])
      {
        AnnounceUpTo(group.preImages, group.entries, i);
        DeliveredInTurn(old(delivered), Announce(group.preImages, group.entries[..i]),
                        AnnounceOps(group.preImages, i, group.entries[i].operations, group.entries[i].snapshot));
        AnnounceEntry(group.preImages, i, group.entries[i]);
      }
      assert group.entries[..|group.entries|] == group.entries;
    }

    method AnnounceEntry(preImages: seq<PreImage>, entry: nat, e: Entry)
      modifies this`delivered
      ensures delivered == old(delivered) + AnnounceOps(preImages, entry, e.operations, e.snapshot)
    {
      for j := 0 to |e.operations|
        invariant delivered == old(delivered) + AnnounceOps(preImages, entry, e.operations[..j], e.snapshot)
      {
        AnnounceOpsUpTo(preImages, entry, e.operations, j, e.snapshot);
        DeliveredInTurn(old(delivered), AnnounceOps(preImages, entry, e.operations[..j], e.snapshot),
                        AnnounceOne(preImages, entry, j, e.operations[j], e.snapshot));
        delivered := delivered + AnnounceOne(preImages, entry, j, e.operations[j], e.snapshot);
      }
      assert e.operations[..|e.operations|] == e.operations;
    }

    /** What a materialize checks before it writes anything. */
    method CheckStagedGroup(h: Hash) returns (r: Result<StagedGroup>)
      ensures r == CheckGroup(h, storage, staging != null)
    {
      if staging != null { return Err(StagingSessionEngaged); }
      if storage.slot.None? { return Err(StagingSlotEmpty); }
      var group := storage.slot.value;
      var base := if group.entries == [] then None else group.entries[0].previous;
      if base != storage.head { return Err(StagingBaseMoved(Sequence(storage))); }
      var verified := VerifyEntries(h, group.entries);
      if verified.Err? { return Err(verified.error); }
      if group.entries == [] { return Err(StagingSlotEmpty); }
      return Ok(group);
    }

    /** The log rows of a verified group, appended one entry at a time. */
    method AppendGroup(h: Hash, txn: Transaction, entries: seq<Entry>)
      requires Ordered(txn.st) && VerifyGroup(h, entries, txn.st.head, Sequence(txn.st), Snapshot(txn.st)) == Ok(())
      modifies txn
      ensures txn.st ==
                AppendEntries(old(txn.st), entries).(tables := old(txn.st).tables, identified := old(txn.st).identified)
    {
      ghost var st := txn.st;
      for i := 0 to |entries|
        invariant Ordered(txn.st)
        invariant txn.st == AppendEntries(st, entries[..i]).(tables := st.tables, identified := st.identified)
      {
        LoggedInGroup(h, st, entries, i, txn.st);
        txn.AppendBoth(entries[i]);
      }
      assert entries[..|entries|] == entries;
    }

    /** One atomic write applies the parked payloads, appends both logs and the
        outbox, moves every counter the direct writes would have moved, and clears
        the slot; then the changes are announced. */
    method MaterializeStagedGroup(h: Hash, directory: Directory) returns (r: Result<MaterializeReceipt>)
      requires Ordered(storage)
      modifies this`storage, this`delivered
      ensures var m := Staging.Materialize(h, old(storage), directory, staging != null);
              r == m.result && storage == m.storage && delivered == old(delivered) + m.deltas
    {
      var checked := CheckStagedGroup(h);
      if checked.Err? { return Err(checked.error); }
      r := LandStagedGroup(h, directory, checked.value);
    }

    method LandStagedGroup(h: Hash, directory: Directory, group: StagedGroup) returns (r: Result<MaterializeReceipt>)
      requires Ordered(storage) && group.entries != []
      requires VerifyGroup(h, group.entries, storage.head, Sequence(storage), Snapshot(storage)) == Ok(())
      modifies this`storage, this`delivered
      ensures var m := MaterializeChecked(old(storage), directory, group);
              r == m.result && storage == m.storage && delivered == old(delivered) + m.deltas
    {
      var entries := group.entries;
      var rows := LandGroupRows(directory, storage.tables, entries);
      if rows.Err? { return Err(rows.error); }
      var identified := AdvanceCounters(storage.identified, entries);
      AppendMeaning(storage, entries);
      var last := entries[|entries| - 1];
      var intent := IntentAfter(storage.intent, last.sequence);
      var txn := new Transaction(storage);
      AppendGroup(h, txn, entries);
      storage := txn.st.(tables := rows.value, identified := identified, slot := None, intent := intent);
      AnnounceGroup(group);
      return Ok(MaterializeReceipt(last.digest, last.sequence, last.snapshot, |entries|));
    }

    // ---- The compaction machine ----

    method BeginCompactionPlan(h: Hash) returns (r: Result<()>)
      modifies this`staging
      ensures var began := BeginCompaction(h, storage, catalog.registrations, old(SessionValue()));
              if began.Ok? then r.Ok? && staging != null && fresh(staging) && staging.Value() == began.value
              else r == Err(began.error) && staging == old(staging)
    {
      if storage.intent.Some? { return Err(CompactionIntentOccupied); }
      r := BeginStagedGroup(h);
    }

    /** An armed fault fires once, after its phase is durable. */
    method InterruptAt(point: Fault) returns (r: Result<()>)
      modifies this`fault
      ensures if old(fault) == Some(point) then r == Err(CompactionInterrupted) && fault == None
              else r == Ok(()) && fault == old(fault)
    {
      if fault == Some(point) {
        fault := None;
        return Err(CompactionInterrupted);
      }
      return Ok(());
    }

    /** The plan and its intent, in one write. */
    method ParkCompactionPlan() returns (r: Result<bool>)
      modifies this`storage, this`staging, this`fault
      ensures Parked(r, storage, fault) == ParkCompaction(old(storage), old(SessionValue()), old(fault))
              && staging == null
    {
      var session := staging;
      staging := null;
      if session == null { return Err(StagingSessionNotEngaged); }
      if session.entries == [] { return Ok(false); }
      if !BaseCurrent(storage, session.base) { return Err(StagingBaseMoved(Sequence(storage))); }
      if storage.slot.Some? || storage.intent.Some? { return Err(CompactionIntentOccupied); }
      storage := storage.(slot := Some(StagedGroup(session.entries, session.preImages)),
                          intent := Some(Intent(Planned, None)));
      var interrupted := InterruptAt(AfterPlanPersisted);
      return if interrupted.Err? then Err(interrupted.error) else Ok(true);
    }

    method CoverPlanned(h: Hash, final: nat) returns (r: Result<()>)
      modifies this`storage
      ensures Outcome(r, storage) == CoverPlan(h, old(storage), catalog.registrations, final)
    {
      var latest := LoadLatest(h);
      if latest.Err? { return Err(latest.error); }
      if latest.value.Some? && latest.value.value.metadata.last >= final { return Ok(()); }
      var written := CheckpointNow(h);
      if written.Err? { return Err(written.error); }
      var reloaded := LoadLatest(h);
      if reloaded.Err? { return Err(reloaded.error); }
      if reloaded.value.None? { return Err(CheckpointRowMissing(0)); }
      var last := reloaded.value.value.metadata.last;
      if last < final { return Err(CompactionCheckpointBehind(last, final)); }
      return Ok(());
    }

    /** One durable phase; true when another follows. */
    method RunOnePhase(h: Hash, directory: Directory) returns (more: Result<bool>)
      requires storage.intent.Some? && (storage.intent.value.phase.Planned? ==> Ordered(storage))
      modifies this`storage, this`delivered, this`fault
      ensures var p := RunPhase(h, old(storage), catalog.registrations, directory, old(Engaged()), old(fault));
              more == p.more && storage == p.storage && fault == p.fault && delivered == old(delivered) + p.deltas
    {
      match storage.intent.value.phase {
        case Planned =>
          var applied := MaterializeStagedGroup(h, directory);
          if applied.Err? { return Err(applied.error); }
          var interrupted := InterruptAt(AfterRetractionsApplied);
          return if interrupted.Err? then Err(interrupted.error) else Ok(true);
        case Applied =>
          var final := storage.intent.value.finalSequence;
          if final.None? { return Err(CompactionIntentMissingSequence); }
          var covered := CoverPlanned(h, final.value);
          if covered.Err? { return Err(covered.error); }
          storage := storage.(intent := Some(Intent(Checkpointed, final)));
          var interrupted := InterruptAt(AfterCheckpointPublished);
          return if interrupted.Err? then Err(interrupted.error) else Ok(true);
        case Checkpointed =>
          var compacted := CompactConfiguredHistory(h);
          if compacted.Err? { return Err(compacted.error); }
          var interrupted := InterruptAt(AfterHistoryFloorAdvanced);
          if interrupted.Err? { return Err(interrupted.error); }
          storage := storage.(intent := None);
          return Ok(false);
      }
    }

    /** Every phase that continues has moved the durable intent forward, so resuming
        terminates. */
    method ResumeCompaction(h: Hash, directory: Directory) returns (r: Result<()>)
      requires Ordered(storage)
      modifies this`storage, this`delivered, this`fault
      ensures var out := Resume(h, old(storage), catalog.registrations, directory, old(Engaged()), old(fault));
              r == out.result && storage == out.storage && fault == out.fault
                  && delivered == old(delivered) + out.deltas
    {
      r := ResumeFrom(h, directory);
    }

    method ResumeFrom(h: Hash, directory: Directory) returns (r: Result<()>)
      requires storage.intent.Some? && storage.intent.value.phase.Planned? ==> Ordered(storage)
      modifies this`storage, this`delivered, this`fault
      ensures var out := Resume(h, old(storage), catalog.registrations, directory, old(Engaged()), old(fault));
              r == out.result && storage == out.storage && fault == out.fault
                  && delivered == old(delivered) + out.deltas
      decreases Rank(storage.intent)
    {
      if storage.intent.None? { return Ok(()); }
      ghost var p := RunPhase(h, storage, catalog.registrations, directory, Engaged(), fault);
      ResumeIs(h, storage, catalog.registrations, directory, Engaged(), fault);
      var more := RunOnePhase(h, directory);
      if more.Err? { return Err(more.error); }
      if !more.value { return Ok(()); }
      ghost var rest := Resume(h, storage, catalog.registrations, directory, Engaged(), fault);
      DeliveredInTurn(old(delivered), p.deltas, rest.deltas);
      r := ResumeFrom(h, directory);
    }

    /** What a recovering open runs before the engine serves. */
    method Recover(h: Hash, directory: Directory) returns (r: Result<()>)
      requires Ordered(storage) && staging == null && fault == None
               && catalog.registrations == CatalogRows(storage.registrations)
      modifies this`storage, this`delivered, this`fault
      ensures var served := OpenRecovering(h, old(storage), directory);
              storage == served.storage && (r.Ok? <==> served.result.Ok?) && (r.Err? ==> served.result == Err(r.error))
    {
      var resumed := ResumeCompaction(h, directory);
      if resumed.Err? { return Err(resumed.error); }
      if storage.policy.None? { return Ok(()); }
      var compacted := CompactConfiguredHistory(h);
      return if compacted.Err? then Err(compacted.error) else Ok(());
    }

    // ---- The mirror outbox ----

    method AcknowledgeMirror(head: MirrorHead) returns (r: Result<MirrorAcknowledgement>)
      modifies this`storage
      ensures Outcome(r, storage) == Acknowledge(old(storage), head)
    {
      var logged := RowAt(storage.versioned, EntryRowSequence, head.sequence);
      var recorded := RowAt(storage.outbox, OutboxRowSequence, head.sequence);
      if recorded.None? { return Err(MirrorHeadUnknown(head.sequence)); }
      if logged.None? || logged.value.digest != recorded.value.digest {
        return Err(OutboxEntryMismatch(head.sequence));
      }
      if recorded.value.digest != head.digest { return Err(MirrorHeadForked(head.sequence)); }
      if storage.cursor.Some? && head.sequence <= storage.cursor.value.sequence {
        return Ok(Unchanged(storage.cursor.value));
      }
      storage := storage.(cursor := Some(head));
      return Ok(Advanced(head));
    }

    // ---- Reads ----

    /** Every row of a domain table, seen through the session if one is engaged. */
    method MatchTexts(table: Name) returns (rows: map<Bytes, Bytes>)
      ensures rows == if staging == null then TextRows(storage.tables, table)
                      else OverlayTexts(TextRows(storage.tables, table), Effects(AllOps(staging.entries), table))
    {
      rows := TextRows(storage.tables, table);
      if staging != null {
        var effects := staging.OverlayEffects(table);
        for i := 0 to |effects|
          invariant rows == OverlayTexts(TextRows(storage.tables, table), effects[..i])
        {
          OverlayOneText(TextRows(storage.tables, table), effects, i);
          match effects[i].payload {
            case Record(bytes) => rows := rows[Text(effects[i].key) := bytes];
            case Tombstone => rows := rows - {Text(effects[i].key)};
          }
        }
        assert effects[..|effects|] == effects;
      }
    }

    /** Every row of an identified table, likewise. */
    method MatchNumbers(table: Name) returns (rows: map<nat, Bytes>)
      ensures rows == if staging == null then NumberRows(storage.tables, table)
                      else OverlayNumbers(NumberRows(storage.tables, table), Effects(AllOps(staging.entries), table))
    {
      rows := NumberRows(storage.tables, table);
      if staging != null {
        var effects := staging.OverlayEffects(table);
        for i := 0 to |effects|
          invariant rows == OverlayNumbers(NumberRows(storage.tables, table), effects[..i])
        {
          assert effects[..i + 1][..i] == effects[..i];
          if effects[i].key.Identifier? {
            match effects[i].payload {
              case Record(bytes) => rows := rows[effects[i].key.id := bytes];
              case Tombstone => rows := rows - {effects[i].key.id};
            }
          }
        }
        assert effects[..|effects|] == effects;
      }
    }

    // ---- Import ----

    method BeginImportSession() returns (r: Result<ImportSession>)
      ensures var begun := BeginImport(storage, catalog.registrations);
              if begun.Ok? then r.Ok? && fresh(r.value) && r.value.engine == this && r.value.Value() == Import(None, [])
              else r == Err(begun.error)
    {
      if storage.policy.None? { return Err(VersioningNotEnabled); }
      if !Fresh(storage, catalog.registrations) { return Err(ImportStoreNotFresh); }
      var session := new ImportSession(this);
      return Ok(session);
    }

    method FoldForImport(h: Hash, directory: Directory, k: Checkpoint, suffix: seq<Entry>) returns (r: Result<Folded>)
      ensures r == FoldImport(h, storage.tables, directory, k, suffix)
    {
      var folded := FoldAndList(h, k.Rows(), suffix, Some(k.metadata.coveredDigest), k.metadata.inventory.families);
      if folded.Err? { return Err(folded.error); }
      var landed := LandRows(directory, storage.tables, folded.value.rows.Ordered());
      if landed.Err? { return Err(landed.error); }
      return Ok(Folded(landed.value, ViewDigest(h, folded.value.view), |folded.value.rows.rows|));
    }

    /** The one write of an import. */
    method WriteImport(h: Hash, k: Checkpoint, suffix: seq<Entry>, tables: Tables)
      modifies this`storage
      ensures storage == Restored(h, old(storage), k, suffix, tables)
    {
      var m := k.metadata;
      var registrations := BindFamilies(storage.registrations, m.inventory.families);
      var identified := RestoreCounters(storage.identified, m.inventory.counters);
      PublishNow(h, k);
      var published := storage;
      var txn := new Transaction(published);
      for i := 0 to |suffix|
        invariant storage == published && published == PutCheckpoint(h, old(storage), k)
        invariant txn.st == RestoreEntries(published, suffix[..i])
      {
        assert suffix[..i + 1][..i] == suffix[..i];
        txn.AppendVersioned(suffix[i], i + 1);
        txn.RecordOutbox(suffix[i]);
        txn.AppendCommit(Project(suffix[i]), i + 1);
      }
      assert suffix[..|suffix|] == suffix;
      RestoredAssembles(h, old(storage), k, suffix, tables);
      var cursor := CursorAfter(m, suffix);
      storage := txn.st.(registrations := registrations, identified := identified,
                         sequence := Some(cursor.0), snapshot := Some(cursor.1), tables := tables);
    }

    method ApplyImportNow(h: Hash, directory: Directory, k: Checkpoint, suffix: seq<Entry>)
      returns (r: Result<ImportReceipt>)
      modifies this`storage, catalog
      ensures Imported(r, storage, catalog.registrations) ==
              ApplyImport(h, old(storage), old(catalog.registrations), directory, k, suffix)
    {
      var m := k.metadata;
      var admitted := ImportAdmits(h, storage, catalog.registrations, m);
      if admitted.Err? { return Err(admitted.error); }
      var folded := FoldForImport(h, directory, k, suffix);
      if folded.Err? { return Err(folded.error); }
      WriteImport(h, k, suffix, folded.value.tables);
      var inserted := InsertAllFamilies(catalog, m.inventory.families);
      var cursor := CursorAfter(m, suffix);
      return if inserted.Err? then Err(inserted.error)
             else Ok(ImportReceipt(m.first, m.last, |suffix|, folded.value.viewDigest, folded.value.rows, cursor.0,
                                   cursor.1));
    }
  }

  method BindFamilies(registrations: map<Name, FamilyIdentity>, families: seq<FamilyIdentity>)
    returns (bound: map<Name, FamilyIdentity>)
    ensures bound == BindAll(registrations, families)
  {
    bound := registrations;
    for i := 0 to |families|
      invariant bound == BindAll(registrations, families[..i])
    {
      assert families[..i + 1][..i] == families[..i];
      bound := bound[families[i].table := families[i]];
    }
    assert families[..|families|] == families;
  }

  method RestoreCounters(identified: map<Name, nat>, counters: seq<IdentifiedCounter>)
    returns (restored: map<Name, nat>)
    ensures restored == CountAll(identified, counters)
  {
    restored := identified;
    for i := 0 to |counters|
      invariant restored == CountAll(identified, counters[..i])
    {
      assert counters[..i + 1][..i] == counters[..i];
      restored := restored[counters[i].table := counters[i].next];
    }
    assert counters[..|counters|] == counters;
  }

  /** Insert family by family; a table listed twice stops the loop half way. */
  method InsertAllFamilies(catalog: Catalog, families: seq<FamilyIdentity>) returns (r: Result<()>)
    modifies catalog
    ensures CatalogInsert(r, catalog.registrations) == InsertFamilies(old(catalog.registrations), families)
  {
    for i := 0 to |families|
      invariant InsertFamilies(old(catalog.registrations), families) ==
                  InsertFamilies(catalog.registrations, families[i..])
    {
      assert families[i..][1..] == families[i + 1..] && families[i..][0] == families[i];
      var inserted := catalog.Insert(families[i]);
      if inserted.Err? { return Err(inserted.error); }
    }
    return Ok(());
  }

  lemma {:induction false} RestoreKeepsOthers(st: Storage, suffix: seq<Entry>, checkpoints: map<nat, Metadata>,
                                              segments: map<Digest, Segment>, latest: Option<nat>)
    ensures RestoreEntries(st.(checkpoints := checkpoints, segments := segments, latestCheckpoint := latest), suffix) ==
            RestoreEntries(st, suffix).(checkpoints := checkpoints, segments := segments, latestCheckpoint := latest)
  {
    if suffix != [] { RestoreKeepsOthers(st, suffix[..|suffix| - 1], checkpoints, segments, latest); }
  }

  /** Publishing first and restoring the entries after is one restore. */
  lemma RestoredAssembles(h: Hash, st: Storage, k: Checkpoint, suffix: seq<Entry>, tables: Tables)
    ensures var m, cursor := k.metadata, CursorAfter(k.metadata, suffix);
            RestoreEntries(PutCheckpoint(h, st, k), suffix).(
              registrations := BindAll(st.registrations, m.inventory.families),
              identified := CountAll(st.identified, m.inventory.counters),
              sequence := Some(cursor.0), snapshot := Some(cursor.1), tables := tables) ==
            Restored(h, st, k, suffix, tables)
  {
    var published := PutCheckpoint(h, st, k);
    RestoreKeepsOthers(st, suffix, published.checkpoints, published.segments, published.latestCheckpoint);
  }

  /** One restore into a fresh store: exactly one verified checkpoint, and the log
      suffix that continues past it. */
  class ImportSession {
    const engine: Engine
    var checkpoint: Option<Checkpoint>
    var suffix: seq<Entry>

    function Value(): Import
      reads this
    {
      Import(checkpoint, suffix)
    }

    constructor (engine: Engine)
      ensures this.engine == engine && Value() == Import(None, [])
    {
      this.engine := engine;
      checkpoint, suffix := None, [];
    }

    method IngestCheckpointNow(h: Hash, k: Checkpoint) returns (r: Result<()>)
      modifies this
      ensures r.Ok? ==> IngestCheckpoint(h, old(Value()), k) == Ok(Value())
      ensures r.Err? ==> IngestCheckpoint(h, old(Value()), k) == Err(r.error) && Value() == old(Value())
    {
      if checkpoint.Some? { return Err(ImportCheckpointAlreadyIngested); }
      var verified := VerifyCheckpoint(h, k);
      if verified.Err? { return Err(verified.error); }
      checkpoint := Some(k);
      return Ok(());
    }

    method IngestSuffix(entries: seq<Entry>)
      modifies this
      ensures Value() == old(Value()).(suffix := old(suffix) + entries)
    {
      suffix := suffix + entries;
    }

    method Commit(h: Hash, directory: Directory) returns (r: Result<ImportReceipt>)
      modifies engine`storage, engine.catalog
      ensures Imported(r, engine.storage, engine.catalog.registrations) ==
              CommitImport(h, old(engine.storage), old(engine.catalog.registrations), directory, Value())
    {
      if checkpoint.None? { return Err(ImportMissingCheckpoint); }
      r := engine.ApplyImportNow(h, directory, checkpoint.value, suffix);
    }
  }

  lemma ResumeIs(h: Hash, st: Storage, catalog: seq<FamilyIdentity>, directory: Directory, engaged: Option<nat>,
                 fault: Option<Fault>)
    ensures var p := RunPhase(h, st, catalog, directory, engaged, fault);
            var out := Resume(h, st, catalog, directory, engaged, fault);
            && (p.more.Err? ==> out == Resumed(Err(p.more.error), p.storage, p.fault, p.deltas))
            && (p.more == Ok(false) ==> out == Resumed(Ok(()), p.storage, p.fault, p.deltas))
            && (p.more == Ok(true) ==>
                  var rest := Resume(h, p.storage, catalog, directory, engaged, p.fault);
                  && out == rest.(deltas := p.deltas + rest.deltas)
                  && Rank(p.storage.intent) == Rank(st.intent) - 1)
  {
    PhaseDescends(h, st, catalog, directory, engaged, fault);
  }

  lemma DeliveredInTurn(a: seq<Delta>, b: seq<Delta>, c: seq<Delta>)
    ensures a + b + c == a + (b + c)
  {
  }

  /** Logging the next entry of a group appends it, rows and counters apart. */
  lemma LoggedInGroup(h: Hash, st: Storage, entries: seq<Entry>, i: nat, now: Storage)
    requires VerifyGroup(h, entries, st.head, Sequence(st), Snapshot(st)) == Ok(()) && i < |entries|
    requires now == AppendEntries(st, entries[..i]).(tables := st.tables, identified := st.identified)
    ensures entries[i].sequence > Sequence(now)
    ensures Logged(now, entries[i]) ==
              AppendEntries(st, entries[..i + 1]).(tables := st.tables, identified := st.identified)
  {
    NextInGroup(h, st, entries, i);
  }

  lemma AnnounceOpsUpTo(preImages: seq<PreImage>, entry: nat, ops: seq<LogOperation>, j: nat, snapshot: nat)
    requires j < |ops|
    ensures AnnounceOps(preImages, entry, ops[..j + 1], snapshot) ==
            AnnounceOps(preImages, entry, ops[..j], snapshot) + AnnounceOne(preImages, entry, j, ops[j], snapshot)
  {
    assert ops[..j + 1][..j] == ops[..j];
  }

  lemma AnnounceUpTo(preImages: seq<PreImage>, entries: seq<Entry>, i: nat)
    requires i < |entries|
    ensures Announce(preImages, entries[..i + 1]) ==
            Announce(preImages, entries[..i]) + AnnounceOps(preImages, i, entries[i].operations, entries[i].snapshot)
  {
    assert entries[..i + 1][..i] == entries[..i];
  }

  lemma NextInGroup(h: Hash, st: Storage, entries: seq<Entry>, i: nat)
    requires VerifyGroup(h, entries, st.head, Sequence(st), Snapshot(st)) == Ok(()) && i < |entries|
    ensures entries[i].sequence == Sequence(AppendEntries(st, entries[..i])) + 1
    ensures AppendEntries(st, entries[..i + 1]) == AppendEntry(AppendEntries(st, entries[..i]), entries[i])
  {
    VerifiedPrefix(h, entries, st.head, Sequence(st), Snapshot(st), i);
    GroupCursor(h, st, entries[..i]);
    assert entries[..i + 1][..i] == entries[..i];
  }

  lemma {:induction false} VerifiedPrefix(h: Hash, entries: seq<Entry>, head: Option<Digest>, sequence: nat,
                                          snapshot: nat, i: nat)
    requires VerifyGroup(h, entries, head, sequence, snapshot) == Ok(()) && i < |entries|
    ensures VerifyGroup(h, entries[..i], head, sequence, snapshot) == Ok(()) && entries[i].sequence == sequence + i + 1
  {
    var n := |entries| - 1;
    if i < n {
      assert entries[..n][..i] == entries[..i];
      VerifiedPrefix(h, entries[..n], head, sequence, snapshot, i);
    }
  }

  /** Read every row in its stored shape and carry it forward. */
  method CarryTexts(tables: Tables, table: Name, prior: Prior, texts: seq<Bytes>) returns (r: Result<seq<Row>>)
    requires forall t :: t in texts ==> Coord(table, Domain(t)) in tables
    ensures r == CarryRows(tables, table, prior, texts)
  {
    var rows: seq<Row> := [];
    for i := 0 to |texts|
      invariant CarryRows(tables, table, prior, texts[..i]) == Ok(rows)
    {
      assert texts[..i + 1][..i] == texts[..i] && texts[i] in texts;
      var carried := prior.convert(tables[Coord(table, Domain(texts[i]))]);
      if carried.None? {
        RefusedCarry(tables, table, prior, texts, i + 1);
        return Err(VersionedPayloadDecode(table));
      }
      rows := rows + [Row(texts[i], carried.value)];
    }
    assert texts[..|texts|] == texts;
    return Ok(rows);
  }

  /** The counters the identified asserts of a list of operations leave. */
  method AdvanceBy(identified: map<Name, nat>, ops: seq<LogOperation>) returns (advanced: map<Name, nat>)
    ensures advanced == AdvanceIdentified(identified, ops)
  {
    advanced := identified;
    for i := 0 to |ops|
      invariant advanced == AdvanceIdentified(identified, ops[..i])
    {
      assert ops[..i + 1][..i] == ops[..i];
      if ops[i].operation.Assert? && ops[i].key.Some? && ops[i].key.value.Identifier? {
        advanced := advanced[ops[i].family.table := ops[i].key.value.id + 1];
      }
    }
    assert ops[..|ops|] == ops;
  }

  method AdvanceCounters(identified: map<Name, nat>, entries: seq<Entry>) returns (advanced: map<Name, nat>)
    ensures advanced == AdvanceIdentified(identified, AllOps(entries))
  {
    advanced := identified;
    for i := 0 to |entries|
      invariant advanced == AdvanceIdentified(identified, AllOps(entries[..i]))
    {
      AllOpsUpTo(entries, i);
      AdvanceConcat(identified, AllOps(entries[..i]), entries[i].operations);
      advanced := AdvanceBy(advanced, entries[i].operations);
    }
    assert entries[..|entries|] == entries;
  }

  /** Land logged operations one by one through the directory. */
  method LandOps(directory: Directory, tables: Tables, ops: seq<LogOperation>) returns (r: Result<Tables>)
    ensures r == MaterializeOps(directory, tables, ops)
  {
    var txn := new Transaction(EmptyStore(None).(tables := tables));
    for i := 0 to |ops|
      invariant MaterializeOps(directory, tables, ops[..i]) == Ok(txn.st.tables)
    {
      assert ops[..i + 1][..i] == ops[..i];
      var op := ops[i];
      if op.key.None? {
        RefusedOps(directory, tables, ops, i + 1);
        return Err(ReplayMissingKey(op.family.family));
      }
      var landed := txn.Materialize(directory, ViewRow(op.family, op.key.value, op.payload));
      if landed.Err? {
        RefusedOps(directory, tables, ops, i + 1);
        return Err(landed.error);
      }
    }
    assert ops[..|ops|] == ops;
    return Ok(txn.st.tables);
  }

  method LandGroupRows(directory: Directory, tables: Tables, entries: seq<Entry>) returns (r: Result<Tables>)
    ensures r == MaterializeOps(directory, tables, AllOps(entries))
  {
    var landed := tables;
    for i := 0 to |entries|
      invariant MaterializeOps(directory, tables, AllOps(entries[..i])) == Ok(landed)
    {
      AllOpsUpTo(entries, i);
      MaterializeOpsConcat(directory, tables, AllOps(entries[..i]), entries[i].operations);
      var rows := LandOps(directory, landed, entries[i].operations);
      if rows.Err? {
        RefusedEntries(directory, tables, entries, i + 1);
        return Err(rows.error);
      }
      landed := rows.value;
    }
    assert entries[..|entries|] == entries;
    return Ok(landed);
  }

  lemma AllOpsUpTo(entries: seq<Entry>, i: nat)
    requires i < |entries|
    ensures AllOps(entries[..i + 1]) == AllOps(entries[..i]) + entries[i].operations
  {
    assert entries[..i + 1][..i] == entries[..i];
  }

  lemma RefusedEntries(directory: Directory, tables: Tables, entries: seq<Entry>, n: nat)
    requires n <= |entries| && MaterializeOps(directory, tables, AllOps(entries[..n])).Err?
    ensures MaterializeOps(directory, tables, AllOps(entries)) ==
              MaterializeOps(directory, tables, AllOps(entries[..n]))
  {
    AllOpsPrefix(entries, n);
    assert AllOps(entries)[..|AllOps(entries[..n])|] == AllOps(entries[..n]);
    RefusedOps(directory, tables, AllOps(entries), |AllOps(entries[..n])|);
  }

  lemma {:induction false} MaterializeOpsConcat(directory: Directory, tables: Tables, a: seq<LogOperation>,
                                                b: seq<LogOperation>)
    requires MaterializeOps(directory, tables, a).Ok?
    ensures MaterializeOps(directory, tables, a + b) ==
              MaterializeOps(directory, MaterializeOps(directory, tables, a).value, b)
  {
    if b == [] {
      assert a + b == a;
    } else {
      assert (a + b)[..|a + b| - 1] == a + b[..|b| - 1];
      MaterializeOpsConcat(directory, tables, a, b[..|b| - 1]);
    }
  }

  lemma {:induction false} AllOpsPrefix(entries: seq<Entry>, n: nat)
    requires n <= |entries|
    ensures AllOps(entries[..n]) <= AllOps(entries)
  {
    if n == |entries| {
      assert entries[..n] == entries;
    } else {
      assert entries[..|entries| - 1][..n] == entries[..n];
      AllOpsPrefix(entries[..|entries| - 1], n);
    }
  }

  /** Land rows one by one through the directory; the first refusal aborts them all. */
  method LandRows(directory: Directory, tables: Tables, rows: seq<ViewRow>) returns (r: Result<Tables>)
    ensures r == MaterializeAll(directory, tables, rows)
  {
    var txn := new Transaction(EmptyStore(None).(tables := tables));
    for i := 0 to |rows|
      invariant MaterializeAll(directory, tables, rows[..i]) == Ok(txn.st.tables)
    {
      assert rows[..i + 1][..i] == rows[..i];
      var landed := txn.Materialize(directory, rows[i]);
      if landed.Err? {
        RefusedMaterialize(directory, tables, rows, i + 1);
        return Err(landed.error);
      }
    }
    assert rows[..|rows|] == rows;
    return Ok(txn.st.tables);
  }
}
