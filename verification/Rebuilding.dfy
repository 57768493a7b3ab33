// Rebuild: the tables re-derived from the log.
module Rebuilding {
  import opened ByteStrings
  import opened Errors
  import opened Versioning
  import opened CanonicalViews
  import opened Checkpoints
  import opened Catalogs
  import opened Stores
  import opened Invariants
  import opened Histories
  import opened Retention

  /** The component's directory: which tables it opens as engine-identified. */
  type Directory = set<Name>

  function RowCoord(row: ViewRow): Coord { Coord(row.family.table, row.key) }

  /** Land one row through the directory: insert a record, remove a tombstone. */
  function MaterializeRow(directory: Directory, tables: Tables, row: ViewRow): Result<Tables> {
    if row.key.Identifier? != (row.family.table in directory)
    then Err(MaterializeKeyKindMismatch(row.family.table, Text(row.key)))
    else
      match row.payload
      case Record(bytes) => Ok(tables[RowCoord(row) := bytes])
      case Tombstone => Ok(tables - {RowCoord(row)})
  }

  function MaterializeAll(directory: Directory, tables: Tables, rows: seq<ViewRow>): Result<Tables> {
    if rows == [] then Ok(tables)
    else
      var before := MaterializeAll(directory, tables, rows[..|rows| - 1]);
      if before.Err? then before else MaterializeRow(directory, before.value, rows[|rows| - 1])
  }

  datatype RebuildReceipt = RebuildReceipt(viewDigest: Digest, rows: nat, cleared: nat, folded: nat)

  /** Re-materialize every folded row in one write, clears before inserts. */
  function Rebuild(h: Hash, st: Storage, catalog: seq<FamilyIdentity>,
                   directory: Directory): (r: Outcome<RebuildReceipt>)
    ensures r.storage == st.(tables := r.storage.tables)
  {
    if st.policy.None? then Outcome(Err(VersioningNotEnabled), st)
    else if !Complete(st) then Outcome(Err(VersionedLogIncomplete(st.commitCount, st.versionedCount)), st)
    else
      var c := LatestCheckpoint(h, st);
      if c.Err? then Outcome(Err(c.error), st) else RebuildOver(h, st, catalog, directory, c.value)
  }

  function RebuildOver(h: Hash, st: Storage, catalog: seq<FamilyIdentity>, directory: Directory, c: Option<Checkpoint>)
    : (r: Outcome<RebuildReceipt>)
    ensures r.storage == st.(tables := r.storage.tables)
  {
    var view := ViewOver(h, st, c);
    if view.Err? then Outcome(Err(view.error), st)
    else
      var m := IntoRows(view.value, catalog);
      if m.Err? then Outcome(Err(m.error), st)
      else
        var tables := MaterializeAll(directory, st.tables, m.value.Ordered());
        if tables.Err? then Outcome(Err(tables.error), st)
        else Outcome(Ok(RebuildReceipt(ViewDigest(h, view.value), |m.value.rows|, |m.value.cleared|,
                                       |EntriesFrom(st.versioned, BaseOf(c).after + 1)|)),
                     st.(tables := tables.value))
  }

  // ---- What materializing a list of rows does ----

  function RowCoords(rows: seq<ViewRow>): set<Coord> { set row | row in rows :: RowCoord(row) }

  lemma RowCoordsAppend(init: seq<ViewRow>, row: ViewRow)
    ensures RowCoords(init + [row]) == RowCoords(init) + {RowCoord(row)}
  {
    assert forall r :: r in init + [row] <==> r in init || r == row;
  }

  ghost predicate RightKind(directory: Directory, row: ViewRow) {
    row.key.Identifier? == (row.family.table in directory)
  }

  lemma {:induction false} MaterializeConcat(directory: Directory, tables: Tables, a: seq<ViewRow>, b: seq<ViewRow>)
    requires MaterializeAll(directory, tables, a).Ok?
    ensures MaterializeAll(directory, tables, a + b) ==
              MaterializeAll(directory, MaterializeAll(directory, tables, a).value, b)
  {
    if b == [] {
      assert a + b == a;
    } else {
      assert (a + b)[..|a + b| - 1] == a + b[..|b| - 1];
      MaterializeConcat(directory, tables, a, b[..|b| - 1]);
    }
  }

  lemma {:induction false} ClearAll(directory: Directory, tables: Tables, rows: seq<ViewRow>)
    requires forall row :: row in rows ==> RightKind(directory, row) && row.payload.Tombstone?
    ensures MaterializeAll(directory, tables, rows) == Ok(tables - RowCoords(rows))
  {
    if rows == [] {
      assert tables - RowCoords(rows) == tables;
    } else {
      var init, row := rows[..|rows| - 1], rows[|rows| - 1];
      assert rows == init + [row] && row in rows;
      ClearAll(directory, tables, init);
      RowCoordsAppend(init, row);
      assert tables - RowCoords(init) - {RowCoord(row)} == tables - (RowCoords(init) + {RowCoord(row)});
    }
  }

  /** Inserting rows that name one payload per coordinate. */
  lemma {:induction false} InsertAll(directory: Directory, tables: Tables, rows: seq<ViewRow>,
                                     payloads: map<Coord, Bytes>)
    requires forall row :: row in rows ==>
               RightKind(directory, row) && RowCoord(row) in payloads && row.payload == Record(payloads[RowCoord(row)])
    ensures MaterializeAll(directory, tables, rows).Ok?
    ensures var t := MaterializeAll(directory, tables, rows).value;
            && (forall c :: c in RowCoords(rows) ==> c in t && c in payloads && t[c] == payloads[c])
            && (forall c :: c !in RowCoords(rows) ==> (c in t <==> c in tables) && (c in t ==> t[c] == tables[c]))
  {
    if rows != [] {
      var init, row := rows[..|rows| - 1], rows[|rows| - 1];
      assert rows == init + [row] && row in rows;
      InsertAll(directory, tables, init, payloads);
      RowCoordsAppend(init, row);
    }
  }

  // ---- Rebuild is exact ----

  function CoordsOf(w: World, keys: set<ViewKey>): set<Coord> { set k | k in keys :: CoordOf(w, k) }

  /** No two live rows share a table key: each belongs to a registered family. */
  ghost predicate LiveRegistered(w: World, rows: map<ViewKey, Bytes>, registrations: map<Name, FamilyIdentity>) {
    forall k :: k in rows ==>
             CoordOf(w, k).table in registrations && registrations[CoordOf(w, k).table].Key() == k.Family()
  }

  function LivePayloads(w: World, rows: map<ViewKey, Bytes>,
                        registrations: map<Name, FamilyIdentity>): map<Coord, Bytes>
    requires LiveRegistered(w, rows, registrations)
  {
    map c | c in CoordsOf(w, rows.Keys) && c.table in registrations
        && KeyAt(registrations, c) in rows :: rows[KeyAt(registrations, c)]
  }

  lemma LivePayloadAt(w: World, rows: map<ViewKey, Bytes>, registrations: map<Name, FamilyIdentity>, k: ViewKey)
    requires LiveRegistered(w, rows, registrations) && k in rows
    ensures CoordOf(w, k) in LivePayloads(w, rows, registrations)
    ensures LivePayloads(w, rows, registrations)[CoordOf(w, k)] == rows[k]
  {
    assert KeyAt(registrations, CoordOf(w, k)) == k;
  }

  /** The row a view key yields: at its home, of its kind, with its payload. */
  ghost predicate RowOf(w: World, v: View, keys: set<ViewKey>, row: ViewRow) {
    row.At() in keys && RowCoord(row) == CoordOf(w, row.At()) && RightKind(w.identified, row)
        && row.payload == PayloadAt(v, row.At())
  }

  lemma RowsAreAt(w: World, v: View, inventory: seq<FamilyIdentity>, keySet: set<ViewKey>, keys: seq<ViewKey>)
    requires ViewOk(w, v) && keySet <= v.touched && forall k :: k in keys <==> k in keySet
    ensures RowsFor(v, inventory, keys).Ok?
    ensures var r := RowsFor(v, inventory, keys).value;
            (forall row :: row in r ==> RowOf(w, v, keySet, row)) && RowCoords(r) == CoordsOf(w, keySet)
  {
    RowsForSelfDescribing(v, inventory, keys);
    var r := RowsFor(v, inventory, keys).value;
    forall row | row in r ensures RowOf(w, v, keySet, row) {
      var i :| 0 <= i < |r| && r[i] == row;
      assert r[i].At() == keys[i] && keys[i] in v.touched;
    }
    forall k | k in keySet ensures CoordOf(w, k) in RowCoords(r) {
      var i :| 0 <= i < |keys| && keys[i] == k;
      assert r[i] in r && RowCoord(r[i]) == CoordOf(w, k);
    }
  }

  /** The exact result on any starting tables: every live row at its payload,
      every other touched coordinate empty, everything else as it was. */
  ghost predicate Rebuilt(w: World, v: View, before: Tables, after: Tables) {
    && (forall k {:trigger v.rows[k]} :: k in v.rows ==> CoordOf(w, k) in after && after[CoordOf(w, k)] == v.rows[k])
    && (forall c :: c in CoordsOf(w, v.touched) && c !in CoordsOf(w, v.rows.Keys) ==> c !in after)
    && (forall c :: c !in CoordsOf(w, v.touched) ==>
        (c in after <==> c in before) && (c in after ==> after[c] == before[c]))
  }

  lemma RebuiltFrom(w: World, v: View, before: Tables, after: Tables, registrations: map<Name, FamilyIdentity>)
    requires SelfDescribing(v) && LiveRegistered(w, v.rows, registrations)
    requires var live, mid := CoordsOf(w, v.rows.Keys), before - CoordsOf(w, v.touched - v.rows.Keys);
             && (forall c :: c in live ==> c in after && c in LivePayloads(w, v.rows, registrations)
                                           && after[c] == LivePayloads(w, v.rows, registrations)[c])
             && (forall c :: c !in live ==> (c in after <==> c in mid) && (c in after ==> after[c] == mid[c]))
    ensures Rebuilt(w, v, before, after)
  {
    forall k | k in v.rows ensures CoordOf(w, k) in after && after[CoordOf(w, k)] == v.rows[k] {
      assert CoordOf(w, k) in CoordsOf(w, v.rows.Keys);
      LivePayloadAt(w, v.rows, registrations, k);
    }
    forall c | c in CoordsOf(w, v.touched) && c !in CoordsOf(w, v.rows.Keys) ensures c !in after {
      var k :| k in v.touched && CoordOf(w, k) == c;
      assert k !in v.rows;
      assert c in CoordsOf(w, v.touched - v.rows.Keys);
    }
    forall c | c !in CoordsOf(w, v.touched)
      ensures (c in after <==> c in before) && (c in after ==> after[c] == before[c])
    {
      assert forall k :: k in v.rows ==> k in v.touched;
    }
  }

  /** Clears, then inserts, over the two halves of a view. */
  lemma ClearsThenInserts(w: World, v: View, before: Tables, cleared: seq<ViewRow>, rows: seq<ViewRow>,
                          registrations: map<Name, FamilyIdentity>)
    requires SelfDescribing(v) && LiveRegistered(w, v.rows, registrations)
    requires RowCoords(cleared) == CoordsOf(w, v.touched - v.rows.Keys) && RowCoords(rows) == CoordsOf(w, v.rows.Keys)
    requires forall row :: row in cleared ==> RowOf(w, v, v.touched - v.rows.Keys, row)
    requires forall row :: row in rows ==> RowOf(w, v, v.rows.Keys, row)
    ensures MaterializeAll(w.identified, before, cleared + rows).Ok?
    ensures Rebuilt(w, v, before, MaterializeAll(w.identified, before, cleared + rows).value)
  {
    var payloads := LivePayloads(w, v.rows, registrations);
    ClearAll(w.identified, before, cleared);
    var mid := before - RowCoords(cleared);
    forall row | row in rows
      ensures RightKind(w.identified, row) && RowCoord(row) in payloads
              && row.payload == Record(payloads[RowCoord(row)])
    {
      LivePayloadAt(w, v.rows, registrations, row.At());
    }
    InsertAll(w.identified, mid, rows, payloads);
    MaterializeConcat(w.identified, before, cleared, rows);
    RebuiltFrom(w, v, before, MaterializeAll(w.identified, mid, rows).value, registrations);
  }

  /** Rebuild is exact across family evolution, from any starting tables: a
      retired identity's tombstone and a current row may share a table key, and
      the row still ends in place because clears run before inserts. */
  lemma RebuildIsExact(w: World, v: View, inventory: seq<FamilyIdentity>, before: Tables,
                       registrations: map<Name, FamilyIdentity>)
    requires ViewOk(w, v) && LiveRegistered(w, v.rows, registrations)
    ensures IntoRows(v, inventory).Ok?
    ensures MaterializeAll(w.identified, before, IntoRows(v, inventory).value.Ordered()).Ok?
    ensures Rebuilt(w, v, before, MaterializeAll(w.identified, before, IntoRows(v, inventory).value.Ordered()).value)
  {
    var gone, kept := InViewOrder(v.touched - v.rows.Keys), InViewOrder(v.rows.Keys);
    RowsAreAt(w, v, inventory, v.touched - v.rows.Keys, gone);
    RowsAreAt(w, v, inventory, v.rows.Keys, kept);
    ClearsThenInserts(w, v, before, RowsFor(v, inventory, gone).value, RowsFor(v, inventory, kept).value,
                      registrations);
  }

  /** The order is what makes it exact: inserts before clears would empty every
      coordinate a tombstone shares with a current row. */
  lemma InsertsBeforeClearsLose(directory: Directory, before: Tables, m: MaterializeRows, tombstone: ViewRow,
                                row: ViewRow)
    requires forall r :: r in m.cleared ==> RightKind(directory, r) && r.payload.Tombstone?
    requires MaterializeAll(directory, before, m.rows).Ok?
    requires tombstone in m.cleared && row in m.rows && RowCoord(tombstone) == RowCoord(row)
    ensures MaterializeAll(directory, before, m.rows + m.cleared).Ok?
    ensures RowCoord(row) !in MaterializeAll(directory, before, m.rows + m.cleared).value
  {
    MaterializeConcat(directory, before, m.rows, m.cleared);
    ClearAll(directory, MaterializeAll(directory, before, m.rows).value, m.cleared);
    assert RowCoord(tombstone) in RowCoords(m.cleared);
  }

  // ---- Rebuild restores ----

  lemma AgreeingCoords(w: World, tables: Tables, rows: map<ViewKey, Bytes>, registrations: map<Name, FamilyIdentity>)
    requires Homed(w, registrations) && Agrees(w, tables, rows, registrations)
    ensures tables.Keys == CoordsOf(w, rows.Keys)
  {
    forall c | c in tables ensures c in CoordsOf(w, rows.Keys) {
      assert CoordOf(w, KeyAt(registrations, c)) == c;
    }
  }

  lemma AgreeingIsRebuilt(w: World, v: View, tables: Tables, before: Tables, after: Tables,
                          registrations: map<Name, FamilyIdentity>)
    requires Homed(w, registrations) && SelfDescribing(v) && Agrees(w, tables, v.rows, registrations)
    requires Rebuilt(w, v, before, after)
    requires forall c :: c !in CoordsOf(w, v.touched) ==>
               (c in before <==> c in tables) && (c in before ==> before[c] == tables[c])
    ensures after == tables
  {
    AgreeingCoords(w, tables, v.rows, registrations);
    forall c
      ensures c in after <==> c in tables
      ensures c in after && c in tables ==> after[c] == tables[c]
    {
      if c in CoordsOf(w, v.rows.Keys) {
        var k :| k in v.rows && CoordOf(w, k) == c;
        assert after[c] == v.rows[k] && KeyAt(registrations, c) == k;
        assert tables[c] == v.rows[k];
      }
    }
  }

  /** A rebuild of a complete store succeeds and restores its tables whatever
      happened to the rows the log touched; on an intact store it changes nothing. */
  lemma RebuildRestores(h: Hash, w: World, st: Storage, catalog: seq<FamilyIdentity>, damaged: Tables)
    requires Inv(h, w, st, catalog) && st.policy.Some? && Complete(st)
    requires forall c :: c !in CoordsOf(w, CurrentView(h, st).value.touched) ==>
               (c in damaged <==> c in st.tables) && (c in damaged ==> damaged[c] == st.tables[c])
    ensures Rebuild(h, st.(tables := damaged), catalog, w.identified).result.Ok?
    ensures Rebuild(h, st.(tables := damaged), catalog, w.identified).storage == st
  {
    var c := LatestCheckpoint(h, st).value;
    var broken := st.(tables := damaged);
    assert LatestCheckpoint(h, broken) == LatestCheckpoint(h, st);
    RebuildOverRestores(h, w, st, catalog, damaged, c);
  }

  lemma RebuildOverRestores(h: Hash, w: World, st: Storage, catalog: seq<FamilyIdentity>, damaged: Tables,
                            c: Option<Checkpoint>)
    requires Homed(w, st.registrations) && FoldOk(h, w, st, c) && Complete(st)
    requires forall d :: d !in CoordsOf(w, ViewOver(h, st, c).value.touched) ==>
               (d in damaged <==> d in st.tables) && (d in damaged ==> damaged[d] == st.tables[d])
    ensures RebuildOver(h, st.(tables := damaged), catalog, w.identified, c).result.Ok?
    ensures RebuildOver(h, st.(tables := damaged), catalog, w.identified, c).storage == st
  {
    var v := ViewOver(h, st, c).value;
    assert ViewOver(h, st.(tables := damaged), c) == Ok(v);
    RebuildIsExact(w, v, catalog, damaged, st.registrations);
    var after := MaterializeAll(w.identified, damaged, IntoRows(v, catalog).value.Ordered()).value;
    AgreeingIsRebuilt(w, v, st.tables, damaged, after, st.registrations);
  }
}
