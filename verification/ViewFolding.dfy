// The fold as the engine runs it: a view mutated row by row and operation by
// operation, proved against the fold it computes.
module ViewFolding {
  import opened ByteStrings
  import opened Errors
  import opened Versioning
  import opened CanonicalViews

  class CanonicalView {
    var rows: map<ViewKey, Bytes>
    var touched: set<ViewKey>
    var identities: map<FamilyKey, FamilyIdentity>

    function Value(): View
      reads this
    {
      View(rows, touched, identities)
    }

    constructor ()
      ensures Value() == EMPTY_VIEW
    {
      rows, touched, identities := map[], {}, map[];
    }

    method DeclareIdentity(id: FamilyIdentity)
      modifies this
      ensures Value() == Declare(old(Value()), id)
    {
      if id.Key() !in identities {
        identities := identities[id.Key() := id];
      }
    }

    /** A refused row leaves the view unchanged. */
    method ApplyRow(row: ViewRow) returns (r: Result<()>)
      modifies this
      ensures r.Ok? ==> ApplyCheckpointRow(old(Value()), row) == Ok(Value())
      ensures r.Err? ==> ApplyCheckpointRow(old(Value()), row) == Err(r.error) && Value() == old(Value())
    {
      if row.payload.Tombstone? {
        return Err(ReplayTombstonePayload(row.family.table));
      }
      DeclareIdentity(row.family);
      touched := touched + {row.At()};
      rows := rows[row.At() := row.payload.bytes];
      return Ok(());
    }

    /** An operation the fold refuses aborts the fold; its rows are untouched. */
    method Apply(op: LogOperation) returns (r: Result<()>)
      modifies this
      ensures r.Ok? ==> ApplyOperation(old(Value()), op) == Ok(Value())
      ensures r.Err? ==> ApplyOperation(old(Value()), op) == Err(r.error) && rows == old(rows)
    {
      if op.key.None? {
        return Err(ReplayMissingKey(op.family.family));
      }
      DeclareIdentity(op.family);
      var k := OperationAt(op);
      touched := touched + {k};
      match op.operation {
        case Assert | Mutate =>
          if op.payload.Tombstone? {
            return Err(ReplayTombstonePayload(op.family.table));
          }
          rows := rows[k := op.payload.bytes];
        case Retract =>
          rows := rows - {k};
        case _ =>
          return Err(ReplayUnsupportedOperation(RecordHead(op.operation)));
      }
      return Ok(());
    }

    method ApplyEntry(e: Entry) returns (r: Result<()>)
      modifies this
      ensures r.Ok? ==> ApplyOperations(old(Value()), e.operations) == Ok(Value())
      ensures r.Err? ==> ApplyOperations(old(Value()), e.operations) == Err(r.error)
    {
      for i := 0 to |e.operations|
        invariant ApplyOperations(old(Value()), e.operations[..i]) == Ok(Value())
      {
        var applied := Apply(e.operations[i]);
        assert e.operations[..i + 1][..i] == e.operations[..i];
        if applied.Err? {
          RefusedOperations(old(Value()), e.operations, i + 1);
          return applied;
        }
      }
      assert e.operations[..|e.operations|] == e.operations;
      return Ok(());
    }
  }

  lemma {:induction false} RefusedOperations(v: View, ops: seq<LogOperation>, n: nat)
    requires n <= |ops| && ApplyOperations(v, ops[..n]).Err?
    ensures ApplyOperations(v, ops) == ApplyOperations(v, ops[..n])
  {
    if n == |ops| {
      assert ops[..n] == ops;
    } else {
      assert ops[..|ops| - 1][..n] == ops[..n];
      RefusedOperations(v, ops[..|ops| - 1], n);
    }
  }

  lemma {:induction false} RefusedRows(v: View, rows: seq<ViewRow>, n: nat)
    requires n <= |rows| && ApplyCheckpointRows(v, rows[..n]).Err?
    ensures ApplyCheckpointRows(v, rows) == ApplyCheckpointRows(v, rows[..n])
  {
    if n == |rows| {
      assert rows[..n] == rows;
    } else {
      assert rows[..|rows| - 1][..n] == rows[..n];
      RefusedRows(v, rows[..|rows| - 1], n);
    }
  }

  lemma {:induction false} RefusedEntries(h: Hash, v: View, entries: seq<Entry>, head: Option<Digest>, n: nat)
    requires n <= |entries| && FoldEntries(h, v, entries[..n], head).Err?
    ensures FoldEntries(h, v, entries, head) == FoldEntries(h, v, entries[..n], head)
  {
    if n == |entries| {
      assert entries[..n] == entries;
    } else {
      assert entries[..|entries| - 1][..n] == entries[..n];
      RefusedEntries(h, v, entries[..|entries| - 1], head, n);
    }
  }

  method ApplyCheckpoint(view: CanonicalView, rows: seq<ViewRow>) returns (r: Result<()>)
    requires view.Value() == EMPTY_VIEW
    modifies view
    ensures r.Ok? ==> ApplyCheckpointRows(EMPTY_VIEW, rows) == Ok(view.Value())
    ensures r.Err? ==> ApplyCheckpointRows(EMPTY_VIEW, rows) == Err(r.error)
  {
    for i := 0 to |rows|
      invariant ApplyCheckpointRows(EMPTY_VIEW, rows[..i]) == Ok(view.Value())
    {
      var applied := view.ApplyRow(rows[i]);
      assert rows[..i + 1][..i] == rows[..i];
      if applied.Err? {
        RefusedRows(EMPTY_VIEW, rows, i + 1);
        return applied;
      }
    }
    assert rows[..|rows|] == rows;
    return Ok(());
  }

  /** Apply entries to a view, recomputing every digest and verifying the chain
      link by link before an entry's operations apply. */
  method ApplyEntries(h: Hash, view: CanonicalView, entries: seq<Entry>, chainHead: Option<Digest>)
    returns (r: Result<()>)
    modifies view
    ensures r.Ok? ==> FoldEntries(h, old(view.Value()), entries, chainHead) == Ok(view.Value())
    ensures r.Err? ==> FoldEntries(h, old(view.Value()), entries, chainHead) == Err(r.error)
  {
    var previous := chainHead;
    for i := 0 to |entries|
      invariant previous == HeadAfter(entries[..i], chainHead)
      invariant FoldEntries(h, old(view.Value()), entries[..i], chainHead) == Ok(view.Value())
    {
      var e := entries[i];
      var recomputed := EntryDigest(h, e);
      assert entries[..i + 1][..i] == entries[..i];
      if e.previous != previous || recomputed != e.digest {
        RefusedEntries(h, old(view.Value()), entries, chainHead, i + 1);
        return Err(VersionedChainBroken(e.sequence));
      }
      previous := Some(e.digest);
      var applied := view.ApplyEntry(e);
      if applied.Err? {
        RefusedEntries(h, old(view.Value()), entries, chainHead, i + 1);
        return applied;
      }
    }
    assert entries[..|entries|] == entries;
    return Ok(());
  }

  /** Fold checkpoint rows, then entries continuing from `chainHead`. */
  method FoldLog(h: Hash, rows: seq<ViewRow>, entries: seq<Entry>, chainHead: Option<Digest>)
    returns (r: Result<CanonicalView>)
    ensures r.Ok? ==> fresh(r.value) && Fold(h, rows, entries, chainHead) == Ok(r.value.Value())
    ensures r.Err? ==> Fold(h, rows, entries, chainHead) == Err(r.error)
  {
    var view := new CanonicalView();
    var restored := ApplyCheckpoint(view, rows);
    if restored.Err? { return Err(restored.error); }
    var applied := ApplyEntries(h, view, entries, chainHead);
    if applied.Err? { return Err(applied.error); }
    return Ok(view);
  }

  lemma {:induction false} RefusedRowsFor(v: View, inventory: seq<FamilyIdentity>, keys: seq<ViewKey>, n: nat)
    requires n <= |keys| && RowsFor(v, inventory, keys[..n]).Err?
    ensures RowsFor(v, inventory, keys) == RowsFor(v, inventory, keys[..n])
  {
    if n == |keys| {
      assert keys[..n] == keys;
    } else {
      assert keys[..|keys| - 1][..n] == keys[..n];
      RefusedRowsFor(v, inventory, keys[..|keys| - 1], n);
    }
  }

  method CollectRows(v: View, inventory: seq<FamilyIdentity>, keys: seq<ViewKey>) returns (r: Result<seq<ViewRow>>)
    ensures r == RowsFor(v, inventory, keys)
  {
    var rows: seq<ViewRow> := [];
    for i := 0 to |keys|
      invariant RowsFor(v, inventory, keys[..i]) == Ok(rows)
    {
      var id := Resolve(v, inventory, keys[i]);
      assert keys[..i + 1][..i] == keys[..i];
      if id.Err? {
        RefusedRowsFor(v, inventory, keys, i + 1);
        return Err(id.error);
      }
      rows := rows + [ViewRow(id.value, keys[i].key, PayloadAt(v, keys[i]))];
    }
    assert keys[..|keys|] == keys;
    return Ok(rows);
  }

  /** Tombstones for keys touched but not kept, then the kept rows. */
  method Materializable(view: CanonicalView, inventory: seq<FamilyIdentity>) returns (r: Result<MaterializeRows>)
    ensures r == IntoRows(view.Value(), inventory)
  {
    var v := view.Value();
    var cleared := CollectRows(v, inventory, InViewOrder(v.touched - v.rows.Keys));
    if cleared.Err? { return Err(cleared.error); }
    var rows := CollectRows(v, inventory, InViewOrder(v.rows.Keys));
    if rows.Err? { return Err(rows.error); }
    return Ok(MaterializeRows(rows.value, cleared.value));
  }
}
