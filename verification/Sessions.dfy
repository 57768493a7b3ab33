// The engaged session as the engine runs it: built up call by call in memory.
module Sessions {
  import opened ByteStrings
  import opened Errors
  import opened Versioning
  import opened CanonicalViews
  import opened Catalogs
  import opened Stores
  import opened Writes
  import opened Staging

  class StagingSession {
    var base: StagingBase
    const storeName: Bytes
    const schemaHash: Digest
    var entries: seq<Entry>
    var latestSequence: nat
    var latestSnapshot: nat
    var previous: Option<Digest>
    var overlay: map<Coord, bool>
    var pending: map<Name, nat>
    var preImages: seq<PreImage>

    function Value(): Session
      reads this
    {
      Session(base, storeName, schemaHash, entries, latestSequence, latestSnapshot, previous, overlay, pending,
              preImages)
    }

    constructor (base: StagingBase, storeName: Bytes, schemaHash: Digest)
      ensures Value() ==
                Session(base, storeName, schemaHash, [], base.sequence, base.snapshot, base.head, map[], map[], [])
    {
      this.base, this.storeName, this.schemaHash := base, storeName, schemaHash;
      entries, latestSequence, latestSnapshot, previous := [], base.sequence, base.snapshot, base.head;
      overlay, pending, preImages := map[], map[], [];
    }

    method AppendEntry(h: Hash, ops: seq<LogOperation>) returns (sequence: nat, snapshot: nat)
      modifies this
      ensures Value() == Buffered(h, old(Value()), ops)
      ensures sequence == latestSequence && snapshot == latestSnapshot
    {
      sequence, snapshot := latestSequence + 1, latestSnapshot + 1;
      var e := Seal(h, storeName, schemaHash, sequence, snapshot, previous, ops);
      previous := Some(e.digest);
      latestSequence := sequence;
      latestSnapshot := snapshot;
      entries := entries + [e];
    }

    /** Beside the entry that will be buffered next. */
    method ParkPreImage(operation: nat, bytes: Bytes)
      modifies this
      ensures Value() == old(Value()).(preImages := old(preImages) + [PreImage(|old(entries)|, operation, bytes)])
    {
      preImages := preImages + [PreImage(|entries|, operation, bytes)];
    }

    function OverlayPresence(table: Name, key: RecordKey): Option<bool>
      reads this
    {
      var slot := TextSlot(table, key);
      if slot in overlay then Some(overlay[slot]) else None
    }

    method SetOverlay(table: Name, key: RecordKey, present: bool)
      modifies this
      ensures Value() == old(Value()).(overlay := old(overlay)[TextSlot(table, key) := present])
    {
      overlay := overlay[TextSlot(table, key) := present];
    }

    /** Consecutive mints are consecutive identifiers; the first per table records
        the durable start it was taken from. */
    method MintIdentifier(identified: map<Name, nat>, table: Name) returns (id: nat)
      modifies this
      ensures id == NextMint(old(Value()), identified, table)
      ensures Value() == Minted(old(Value()), identified, table)
    {
      if table in pending {
        id := pending[table];
      } else {
        id := NextIdentifier(identified, table);
        base := base.(starts := base.starts + [IdentifiedCounter(table, id)]);
      }
      pending := pending[table := id + 1];
    }

    /** The buffered effects on one table, in group order. */
    method OverlayEffects(table: Name) returns (effects: seq<Effect>)
      ensures effects == Effects(AllOps(entries), table)
    {
      effects := [];
      for i := 0 to |entries|
        invariant effects == Effects(AllOps(entries[..i]), table)
      {
        assert entries[..i + 1][..i] == entries[..i];
        EffectsConcat(AllOps(entries[..i]), entries[i].operations, table);
        var more := EffectsOf(entries[i].operations, table);
        effects := effects + more;
      }
      assert entries[..|entries|] == entries;
    }

    /** The overlay wins; committed state answers otherwise. */
    method KeyPresent(committed: bool, table: Name, key: RecordKey) returns (present: bool)
      ensures present == StagedPresent(Value(), committed, table, key)
    {
      match OverlayPresence(table, key) {
        case Some(p) => present := p;
        case None => present := committed;
      }
    }

    /** The record a staged retract removes: the last buffered upsert of the key, or
        the committed row. */
    method PreImageFor(committed: Option<Bytes>, table: Name, key: RecordKey) returns (removed: Option<Bytes>)
      ensures removed == StagedPreImage(Value(), committed, table, key)
    {
      match OverlayPresence(table, key) {
        case None => return committed;
        case Some(false) => return None;
        case Some(true) =>
          var effects := OverlayEffects(table);
          var last := FindLast(effects, key);
          if last.Some? && last.value.Record? { return Some(last.value.bytes); }
          return committed;
      }
    }
  }

  lemma {:induction false} EffectsConcat(a: seq<LogOperation>, b: seq<LogOperation>, table: Name)
    ensures Effects(a + b, table) == Effects(a, table) + Effects(b, table)
  {
    if b == [] {
      assert a + b == a;
    } else {
      assert (a + b)[..|a + b| - 1] == a + b[..|b| - 1];
      EffectsConcat(a, b[..|b| - 1], table);
    }
  }

  method EffectsOf(ops: seq<LogOperation>, table: Name) returns (effects: seq<Effect>)
    ensures effects == Effects(ops, table)
  {
    effects := [];
    for j := 0 to |ops|
      invariant effects == Effects(ops[..j], table)
    {
      assert ops[..j + 1][..j] == ops[..j];
      if ops[j].family.table == table && ops[j].key.Some? {
        effects := effects + [Effect(ops[j].key.value, ops[j].payload)];
      }
    }
    assert ops[..|ops|] == ops;
  }

  method FindLast(effects: seq<Effect>, key: RecordKey) returns (last: Option<Payload>)
    ensures last == LastEffect(effects, key)
  {
    var n := |effects|;
    assert effects[..n] == effects;
    while n > 0
      invariant 0 <= n <= |effects|
      invariant LastEffect(effects, key) == LastEffect(effects[..n], key)
    {
      assert effects[..n][..n - 1] == effects[..n - 1];
      n := n - 1;
      if effects[n].key == key { return Some(effects[n].payload); }
    }
    return None;
  }

  // ---- Staged validation ----

  lemma {:induction false} RefusedStaged(tables: Tables, s: Session, catalog: seq<FamilyIdentity>, ws: seq<Write>,
                                         n: nat)
    requires n <= |ws| && StagedPrepare(tables, s, catalog, ws[..n]).Err?
    ensures StagedPrepare(tables, s, catalog, ws) == StagedPrepare(tables, s, catalog, ws[..n])
  {
    var m := |ws| - 1;
    if n == |ws| {
      assert ws[..n] == ws;
    } else {
      assert ws[..m][..n] == ws[..n];
      RefusedStaged(tables, s, catalog, ws[..m], n);
    }
  }

  method PrepareStagedWrite(tables: Tables, session: StagingSession, catalog: seq<FamilyIdentity>, w: Write)
    returns (r: Result<Prepared>)
    ensures r == StagedPrepareOne(tables, session.Value(), catalog, w)
  {
    var family := FindTable(catalog, w.table);
    if family.None? { return Err(TableNotRegistered(w.table)); }
    var committed := At(tables, TextSlot(w.table, w.key));
    match w.kind {
      case Assertion =>
        var present := session.KeyPresent(committed.Some?, w.table, w.key);
        if present { return Err(DuplicateAssertKey(w.table, Text(w.key))); }
        return Ok(Prepared(LogOperation(Assert, family.value, Some(w.key), Record(w.record)), w.record));
      case Mutation =>
        var present := session.KeyPresent(committed.Some?, w.table, w.key);
        if !present { return Err(RecordNotFound(w.table, Text(w.key))); }
        return Ok(Prepared(LogOperation(Mutate, family.value, Some(w.key), Record(w.record)), w.record));
      case Retraction =>
        var removed := session.PreImageFor(committed, w.table, w.key);
        if removed.None? { return Err(RecordNotFound(w.table, Text(w.key))); }
        return Ok(Prepared(LogOperation(Retract, family.value, Some(w.key), Tombstone), removed.value));
    }
  }

  /** Every write against the session as it stands; nothing is buffered yet. */
  method PrepareStagedWrites(tables: Tables, session: StagingSession, catalog: seq<FamilyIdentity>, ws: seq<Write>)
    returns (r: Result<seq<Prepared>>)
    ensures r == StagedPrepare(tables, session.Value(), catalog, ws)
  {
    var keys: set<(Name, RecordKey)> := {};
    var ps: seq<Prepared> := [];
    for i := 0 to |ws|
      invariant keys == Coordinates(ws[..i])
      invariant StagedPrepare(tables, session.Value(), catalog, ws[..i]) == Ok(ps)
    {
      assert ws[..i + 1][..i] == ws[..i];
      var w := ws[i];
      if (w.table, w.key) in keys {
        RefusedStaged(tables, session.Value(), catalog, ws, i + 1);
        return Err(DuplicateWriteKey(w.table, Text(w.key)));
      }
      var p := PrepareStagedWrite(tables, session, catalog, w);
      if p.Err? {
        RefusedStaged(tables, session.Value(), catalog, ws, i + 1);
        return Err(p.error);
      }
      CoordinatesOneMore(ws[..i], w);
      assert ws[..i + 1] == ws[..i] + [w];
      keys := keys + {(w.table, w.key)};
      ps := ps + [p.value];
    }
    assert ws[..|ws|] == ws;
    return Ok(ps);
  }

  lemma CoordinatesOneMore(ws: seq<Write>, w: Write)
    ensures Coordinates(ws + [w]) == Coordinates(ws) + {(w.table, w.key)}
  {
    assert forall x :: x in ws + [w] <==> x in ws || x == w;
  }

  /** Record the plan's effects and pre-images, then its entry. */
  method BufferPrepared(h: Hash, session: StagingSession, ps: seq<Prepared>) returns (sequence: nat, snapshot: nat)
    requires forall i :: 0 <= i < |ps| ==> ps[i].op.key.Some?
    modifies session
    ensures session.Value() == BufferPlan(h, old(session.Value()), ps)
    ensures sequence == session.latestSequence && snapshot == session.latestSnapshot
  {
    ghost var before := session.Value();
    var ops := OpsOf(ps);
    for i := 0 to |ops|
      invariant session.Value() == before.(overlay := OverlayAll(before.overlay, ops[..i]))
    {
      assert ops[..i + 1][..i] == ops[..i];
      session.SetOverlay(ops[i].family.table, ops[i].key.value, ops[i].payload.Record?);
    }
    assert ops[..|ops|] == ops;
    for i := 0 to |ps|
      invariant session.Value() == before.(overlay := OverlayAll(before.overlay, ops),
                                           preImages := before.preImages + PreImagesOf(|before.entries|, ps[..i]))
    {
      assert ps[..i + 1][..i] == ps[..i];
      if ps[i].op.operation.Retract? { session.ParkPreImage(i, ps[i].record); }
    }
    assert ps[..|ps|] == ps;
    sequence, snapshot := session.AppendEntry(h, ops);
  }
}
