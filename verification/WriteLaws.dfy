// Laws of the direct writes: a multi-operation commit equals its single writes in
// any order, and the key discipline is exactly what keeps tables and log equal.
module WriteLaws {
  import opened ByteStrings
  import opened Errors
  import opened Versioning
  import opened CanonicalViews
  import opened Catalogs
  import opened Stores
  import opened Invariants
  import opened Writes

  /** The same writes, one commit at a time, each validated against the state the
      one before left. */
  function Singles(tables: Tables, catalog: seq<FamilyIdentity>, ws: seq<Write>): Result<Tables> {
    if ws == [] then Ok(tables)
    else
      var before := Singles(tables, catalog, ws[..|ws| - 1]);
      if before.Err? then before
      else
        var p := PrepareOne(before.value, catalog, ws[|ws| - 1]);
        if p.Err? then Err(p.error) else Ok(TextOnTables(before.value, p.value.op))
  }

  ghost predicate DomainKeys(ws: seq<Write>) {
    forall w :: w in ws ==> w.key.Domain?
  }

  function Slot(w: Write): Coord { TextSlot(w.table, w.key) }
  function Slots(ws: seq<Write>): set<Coord> { set w | w in ws :: Slot(w) }

  /** Each write's slot holds what it left; every other slot is untouched. */
  ghost predicate Lands(tables: Tables, ws: seq<Write>, after: Tables) {
    && (forall w :: w in ws ==>
          if w.kind.Retraction? then Slot(w) !in after else Slot(w) in after && after[Slot(w)] == w.record)
    && (forall c :: c !in Slots(ws) ==> (c in after <==> c in tables) && (c in after ==> after[c] == tables[c]))
  }

  ghost predicate AllAccepted(tables: Tables, catalog: seq<FamilyIdentity>, ws: seq<Write>) {
    forall w :: w in ws ==> PrepareOne(tables, catalog, w).Ok?
  }

  lemma SlotsAppend(init: seq<Write>, w: Write)
    ensures Slots(init + [w]) == Slots(init) + {Slot(w)}
    ensures Coordinates(init + [w]) == Coordinates(init) + {(w.table, w.key)}
  {
    assert forall x :: x in init + [w] <==> x in init || x == w;
  }

  lemma {:induction false} SlotsBound(ws: seq<Write>)
    ensures |Slots(ws)| <= |ws|
  {
    if ws != [] {
      var init, w := ws[..|ws| - 1], ws[|ws| - 1];
      assert ws == init + [w];
      SlotsBound(init);
      SlotsAppend(init, w);
    }
  }

  /** Distinctness of slots, as a count, so that it does not depend on order. */
  lemma DistinctInit(init: seq<Write>, w: Write)
    ensures |Slots(init + [w])| == |init + [w]| <==> |Slots(init)| == |init| && Slot(w) !in Slots(init)
  {
    SlotsAppend(init, w);
    SlotsBound(init);
    if Slot(w) in Slots(init) { assert Slots(init) + {Slot(w)} == Slots(init); }
  }

  lemma CoordinateIsSlot(init: seq<Write>, w: Write)
    requires DomainKeys(init) && w.key.Domain?
    ensures (w.table, w.key) in Coordinates(init) <==> Slot(w) in Slots(init)
  {
    if (w.table, w.key) in Coordinates(init) {
      var x :| x in init && (x.table, x.key) == (w.table, w.key);
      assert Slot(x) == Slot(w);
    }
    if Slot(w) in Slots(init) {
      var x :| x in init && Slot(x) == Slot(w);
      assert (x.table, x.key) == (w.table, w.key);
    }
  }

  /** Acceptance does not depend on order: every write passes on the pre-state,
      and no slot is written twice. */
  lemma {:induction false} AcceptedMeaning(tables: Tables, catalog: seq<FamilyIdentity>, ws: seq<Write>)
    requires DomainKeys(ws)
    ensures Prepare(tables, catalog, ws).Ok? <==> AllAccepted(tables, catalog, ws) && |Slots(ws)| == |ws|
  {
    if ws != [] {
      var init, w := ws[..|ws| - 1], ws[|ws| - 1];
      assert ws == init + [w] && w in ws;
      AcceptedMeaning(tables, catalog, init);
      CoordinateIsSlot(init, w);
      DistinctInit(init, w);
      assert forall x :: x in ws <==> x in init || x == w;
    }
  }

  /** A write on a slot others left alone validates as on the pre-state. */
  lemma PrepareUntouched(tables: Tables, after: Tables, catalog: seq<FamilyIdentity>, w: Write)
    requires PrepareOne(tables, catalog, w).Ok?
    requires Slot(w) in after <==> Slot(w) in tables
    requires Slot(w) in after ==> after[Slot(w)] == tables[Slot(w)]
    ensures PrepareOne(after, catalog, w) == PrepareOne(tables, catalog, w)
  {
  }

  lemma LandsOne(tables: Tables, init: seq<Write>, mid: Tables, w: Write, after: Tables)
    requires Lands(tables, init, mid) && Slot(w) !in Slots(init)
    requires after == if w.kind.Retraction? then mid - {Slot(w)} else mid[Slot(w) := w.record]
    ensures Lands(tables, init + [w], after)
  {
    SlotsAppend(init, w);
    forall x | x in init + [w]
      ensures if x.kind.Retraction? then Slot(x) !in after else Slot(x) in after && after[Slot(x)] == x.record
    {
      if x in init { assert Slot(x) in Slots(init); }
    }
  }

  lemma {:induction false} SinglesLand(tables: Tables, catalog: seq<FamilyIdentity>, ws: seq<Write>)
    requires AllAccepted(tables, catalog, ws) && |Slots(ws)| == |ws|
    ensures Singles(tables, catalog, ws).Ok? && Lands(tables, ws, Singles(tables, catalog, ws).value)
  {
    if ws != [] {
      var init, w := ws[..|ws| - 1], ws[|ws| - 1];
      assert ws == init + [w] && w in ws;
      DistinctInit(init, w);
      SinglesLand(tables, catalog, init);
      var mid := Singles(tables, catalog, init).value;
      PrepareUntouched(tables, mid, catalog, w);
      FindTableNamesIt(catalog, w.table);
      LandsOne(tables, init, mid, w, Singles(tables, catalog, ws).value);
    }
  }

  lemma {:induction false} CommitLands(tables: Tables, catalog: seq<FamilyIdentity>, ws: seq<Write>)
    requires DomainKeys(ws) && Prepare(tables, catalog, ws).Ok?
    ensures var ops := OpsOf(Prepare(tables, catalog, ws).value);
            (forall op :: op in ops ==> op.key.Some?) && Lands(tables, ws, TextsOnTables(tables, ops))
  {
    if ws != [] {
      var init, w := ws[..|ws| - 1], ws[|ws| - 1];
      assert ws == init + [w] && w in ws;
      CommitLands(tables, catalog, init);
      CoordinateIsSlot(init, w);
      LastPrepared(tables, catalog, ws);
      var before := OpsOf(Prepare(tables, catalog, init).value);
      var ops := OpsOf(Prepare(tables, catalog, ws).value);
      LandsLast(tables, init, w, before, ops);
    }
  }

  lemma LandsLast(tables: Tables, init: seq<Write>, w: Write, before: seq<LogOperation>, ops: seq<LogOperation>)
    requires ops != [] && before == ops[..|ops| - 1] && forall op :: op in before ==> op.key.Some?
    requires Lands(tables, init, TextsOnTables(tables, before)) && Slot(w) !in Slots(init)
    requires var op := ops[|ops| - 1];
             op.key.Some? && TextSlot(op.family.table, op.key.value) == Slot(w) && op.payload == PayloadOf(w)
    ensures (forall op :: op in ops ==> op.key.Some?) && Lands(tables, init + [w], TextsOnTables(tables, ops))
  {
    assert forall op :: op in ops ==> op in before || op == ops[|ops| - 1];
    LandsOne(tables, init, TextsOnTables(tables, before), w, TextsOnTables(tables, ops));
  }

  /** The last write of a validated list, and where it lands. */
  lemma LastPrepared(tables: Tables, catalog: seq<FamilyIdentity>, ws: seq<Write>)
    requires ws != [] && Prepare(tables, catalog, ws).Ok?
    ensures var init, w := ws[..|ws| - 1], ws[|ws| - 1];
            && Prepare(tables, catalog, init).Ok? && (w.table, w.key) !in Coordinates(init)
            && var before, ops :=
               OpsOf(Prepare(tables, catalog, init).value), OpsOf(Prepare(tables, catalog, ws).value);
               && ops != [] && ops[..|ops| - 1] == before
               && var op := ops[|ops| - 1];
                  && op.key.Some? && TextSlot(op.family.table, op.key.value) == Slot(w)
                  && op.payload == PayloadOf(w)
  {
    FindTableNamesIt(catalog, ws[|ws| - 1].table);
  }

  lemma LandsOnce(tables: Tables, ws: seq<Write>, vs: seq<Write>, a: Tables, b: Tables)
    requires Lands(tables, ws, a) && Lands(tables, vs, b) && forall w :: w in ws <==> w in vs
    ensures a == b
  {
    assert Slots(ws) == Slots(vs);
    forall c
      ensures c in a <==> c in b
      ensures c in a && c in b ==> a[c] == b[c]
    {
      if c in Slots(ws) {
        var w :| w in ws && Slot(w) == c;
      }
    }
  }

  /** An accepted multi-operation commit, over one table or several, leaves the
      tables its operations leave as single writes in any order; in particular
      every one of those single writes is accepted. */
  lemma CommitIsSinglesInAnyOrder(tables: Tables, catalog: seq<FamilyIdentity>, ws: seq<Write>, vs: seq<Write>)
    requires DomainKeys(ws) && Prepare(tables, catalog, ws).Ok? && multiset(vs) == multiset(ws)
    ensures var ops := OpsOf(Prepare(tables, catalog, ws).value);
            (forall op :: op in ops ==> op.key.Some?) && Singles(tables, catalog, vs) == Ok(TextsOnTables(tables, ops))
  {
    AcceptedMeaning(tables, catalog, ws);
    forall w ensures w in ws <==> w in vs { assert w in multiset(ws) <==> w in multiset(vs); }
    assert |vs| == |multiset(vs)| == |multiset(ws)| == |ws|;
    assert Slots(vs) == Slots(ws);
    SinglesLand(tables, catalog, vs);
    CommitLands(tables, catalog, ws);
    LandsOnce(tables, vs, ws, Singles(tables, catalog, vs).value,
              TextsOnTables(tables, OpsOf(Prepare(tables, catalog, ws).value)));
  }

  // ---- The key discipline ----

  /** An identifier key written to a domain table is logged under its number but
      stored under its decimal text: the tables no longer hold the log's rows. */
  lemma IdentifierKeyDiverges(w: World, st: Storage, v: View, op: LogOperation)
    requires Homed(w, st.registrations) && ViewOk(w, v) && Agrees(w, st.tables, v.rows, st.registrations)
    requires Applicable(op) && op.key.value.Identifier? && (op.operation.Retract? <==> op.payload.Tombstone?)
    requires op.family.table in st.registrations && st.registrations[op.family.table] == op.family
    requires op.family.table !in w.identified
    requires op.operation.Retract? ==> TextSlot(op.family.table, op.key.value) in st.tables
    ensures !Agrees(w, TextOnTables(st.tables, op), OperationOnRows(v.rows, op), st.registrations)
  {
    var slot, k := TextSlot(op.family.table, op.key.value), OperationAt(op);
    var rows' := OperationOnRows(v.rows, op);
    if op.operation.Retract? {
      var stored := KeyAt(st.registrations, slot);
      assert stored in rows' && CoordOf(w, stored) == slot;
    } else {
      assert CoordOf(w, k) == Coord(op.family.table, op.key.value);
      assert CoordOf(w, k) in st.tables ==> k in v.touched;
      assert k in rows' && CoordOf(w, k) !in TextOnTables(st.tables, op);
    }
  }

  lemma PreparedFamily(w: World, st: Storage, catalog: seq<FamilyIdentity>, write: Write)
    requires CatalogOk(w, st, catalog) && PrepareOne(st.tables, catalog, write).Ok?
    ensures var op := PrepareOne(st.tables, catalog, write).value.op;
            && op.key == Some(write.key) && op.family.table == write.table && Applicable(op)
            && (op.operation.Retract? <==> op.payload.Tombstone?)
            && write.table in st.registrations && st.registrations[write.table] == op.family
            && w.Home(op.family.Key()) == write.table
            && (op.operation.Retract? ==> Slot(write) in st.tables)
  {
    FindTableNamesIt(catalog, write.table);
    assert FindTable(catalog, write.table) == Lookup(st.registrations, write.table);
  }

  /** An accepted keyed write to a domain table keeps the tables equal to the
      log's rows if and only if its key is a domain key. */
  lemma DisciplineIsExact(w: World, st: Storage, catalog: seq<FamilyIdentity>, v: View, write: Write)
    requires CatalogOk(w, st, catalog) && ViewOk(w, v) && Agrees(w, st.tables, v.rows, st.registrations)
    requires write.table !in w.identified && PrepareOne(st.tables, catalog, write).Ok?
    ensures var op := PrepareOne(st.tables, catalog, write).value.op;
            op.key.Some? &&
            (Agrees(w, TextOnTables(st.tables, op), OperationOnRows(v.rows, op), st.registrations)
             <==> write.key.Domain?)
  {
    var op := PrepareOne(st.tables, catalog, write).value.op;
    PreparedFamily(w, st, catalog, write);
    if write.key.Domain? {
      AgreesOperation(w, st.tables, v.rows, st.registrations, op);
    } else {
      IdentifierKeyDiverges(w, st, v, op);
    }
  }
}
