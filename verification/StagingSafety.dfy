// Engaged reads, and how the staging seam fails closed.
module StagingSafety {
  import opened ByteStrings
  import opened Errors
  import opened Versioning
  import opened CanonicalViews
  import opened Checkpoints
  import opened Catalogs
  import opened Stores
  import opened Invariants
  import opened Retention
  import opened Writes
  import opened Rebuilding
  import opened Evolution
  import opened Staging
  import opened StagingLaws

  // ---- Engaged reads ----

  /** The rows of a domain table by key text, of an identified one by number. */
  function TextRows(tables: Tables, table: Name): map<Bytes, Bytes> {
    map c | c in tables && c.table == table && c.slot.Domain? :: c.slot.text := tables[c]
  }

  function NumberRows(tables: Tables, table: Name): map<nat, Bytes> {
    map c | c in tables && c.table == table && c.slot.Identifier? :: c.slot.id := tables[c]
  }

  /** Buffered effects folded onto committed rows, by key text. */
  function OverlayTexts(rows: map<Bytes, Bytes>, effects: seq<Effect>): map<Bytes, Bytes> {
    if effects == [] then rows
    else
      var before, e := OverlayTexts(rows, effects[..|effects| - 1]), effects[|effects| - 1];
      match e.payload
      case Record(bytes) => before[Text(e.key) := bytes]
      case Tombstone => before - {Text(e.key)}
  }

  lemma OverlayOneText(rows: map<Bytes, Bytes>, effects: seq<Effect>, i: nat)
    requires i < |effects|
    ensures var before, e := OverlayTexts(rows, effects[..i]), effects[i];
            OverlayTexts(rows, effects[..i + 1]) ==
              if e.payload.Record? then before[Text(e.key) := e.payload.bytes] else before - {Text(e.key)}
  {
    assert effects[..i + 1][..i] == effects[..i];
  }

  /** ... and by number, skipping effects under other keys. */
  function OverlayNumbers(rows: map<nat, Bytes>, effects: seq<Effect>): map<nat, Bytes> {
    if effects == [] then rows
    else
      var before, e := OverlayNumbers(rows, effects[..|effects| - 1]), effects[|effects| - 1];
      if e.key.Domain? then before
      else
        match e.payload
        case Record(bytes) => before[e.key.id := bytes]
        case Tombstone => before - {e.key.id}
  }

  lemma TextRowsOne(tables: Tables, table: Name, op: LogOperation)
    requires op.key.Some? && (op.family.table == table ==> op.key.value.Domain?)
    ensures TextRows(OperationOnTables(tables, op), table) ==
            if op.family.table == table then OverlayTexts(TextRows(tables, table), [Effect(op.key.value, op.payload)])
            else TextRows(tables, table)
  {
    var d, after := Coord(op.family.table, op.key.value), TextRows(OperationOnTables(tables, op), table);
    var expected :=
        if op.family.table == table then OverlayTexts(TextRows(tables, table), [Effect(op.key.value, op.payload)])
                    else TextRows(tables, table);
    assert OverlayTexts(TextRows(tables, table), []) == TextRows(tables, table);
    forall t
      ensures t in after <==> t in expected
      ensures t in after && t in expected ==> after[t] == expected[t]
    {
      TextRowAt(tables, table, t);
      TextRowAt(OperationOnTables(tables, op), table, t);
    }
  }

  lemma TextRowAt(tables: Tables, table: Name, t: Bytes)
    ensures t in TextRows(tables, table) <==> Coord(table, Domain(t)) in tables
    ensures t in TextRows(tables, table) ==> TextRows(tables, table)[t] == tables[Coord(table, Domain(t))]
  {
    if Coord(table, Domain(t)) in tables { assert Coord(table, Domain(t)).slot.text == t; }
  }

  lemma NumberRowAt(tables: Tables, table: Name, n: nat)
    ensures n in NumberRows(tables, table) <==> Coord(table, Identifier(n)) in tables
    ensures n in NumberRows(tables, table) ==> NumberRows(tables, table)[n] == tables[Coord(table, Identifier(n))]
  {
    if Coord(table, Identifier(n)) in tables { assert Coord(table, Identifier(n)).slot.id == n; }
  }

  lemma NumberRowsOne(tables: Tables, table: Name, op: LogOperation)
    requires op.key.Some?
    ensures NumberRows(OperationOnTables(tables, op), table) ==
            if op.family.table == table
            then OverlayNumbers(NumberRows(tables, table), [Effect(op.key.value, op.payload)])
            else NumberRows(tables, table)
  {
    var after := NumberRows(OperationOnTables(tables, op), table);
    var expected :=
        if op.family.table == table then OverlayNumbers(NumberRows(tables, table), [Effect(op.key.value, op.payload)])
                    else NumberRows(tables, table);
    assert OverlayNumbers(NumberRows(tables, table), []) == NumberRows(tables, table);
    forall n
      ensures n in after <==> n in expected
      ensures n in after && n in expected ==> after[n] == expected[n]
    {
      NumberRowAt(tables, table, n);
      NumberRowAt(OperationOnTables(tables, op), table, n);
    }
  }

  /** An engaged read of a domain table folds to the rows direct writes would hold. */
  lemma {:induction false} EngagedTextsAreShadow(w: World, tables: Tables, ops: seq<LogOperation>, table: Name)
    requires AllPlaced(w, ops) && table !in w.identified
    ensures OverlayTexts(TextRows(tables, table), Effects(ops, table)) ==
              TextRows(OperationsOnTables(tables, ops), table)
  {
    if ops != [] {
      var init, op := ops[..|ops| - 1], ops[|ops| - 1];
      assert op in ops;
      EngagedTextsAreShadow(w, tables, init, table);
      TextRowsOne(OperationsOnTables(tables, init), table, op);
      var before, e := Effects(init, table), Effect(op.key.value, op.payload);
      assert (before + [e])[..|before|] == before && before + [] == before;
    }
  }

  /** An engaged read of an identified table likewise. */
  lemma {:induction false} EngagedNumbersAreShadow(w: World, tables: Tables, ops: seq<LogOperation>, table: Name)
    requires AllPlaced(w, ops)
    ensures OverlayNumbers(NumberRows(tables, table), Effects(ops, table)) ==
              NumberRows(OperationsOnTables(tables, ops), table)
  {
    if ops != [] {
      var init, op := ops[..|ops| - 1], ops[|ops| - 1];
      assert op in ops;
      EngagedNumbersAreShadow(w, tables, init, table);
      NumberRowsOne(OperationsOnTables(tables, init), table, op);
      var before, e := Effects(init, table), Effect(op.key.value, op.payload);
      assert (before + [e])[..|before|] == before && before + [] == before;
    }
  }

  // ---- Failing closed ----

  lemma {:induction false} FirstEntryDecides(h: Hash, entries: seq<Entry>, head: Option<Digest>, sequence: nat,
                                             snapshot: nat)
    requires entries != [] && entries[0].sequence != sequence + 1
    ensures VerifyGroup(h, entries, head, sequence, snapshot) == Err(StagingBaseMoved(sequence))
  {
    if |entries| > 1 { FirstEntryDecides(h, entries[..|entries| - 1], head, sequence, snapshot); }
  }

  /** A store whose commit sequence moved after the group was parked refuses it and
      changes nothing. The sequence number alone decides: nothing is assumed of
      the hash, and a head that happens to be equal does not help. */
  lemma MovedStoreRefusesGroup(h: Hash, st: Storage, directory: Directory, g: StagedGroup)
    requires st.slot == Some(g) && g.entries != [] && g.entries[0].sequence != Sequence(st) + 1
    ensures Materialize(h, st, directory, false) == Materialized(Err(StagingBaseMoved(Sequence(st))), st, [])
  {
    FirstEntryDecides(h, g.entries, st.head, Sequence(st), Snapshot(st));
  }

  /** Likewise a session whose base sequence is no longer the store's. */
  lemma MovedStoreRefusesPark(st: Storage, s: Session)
    requires s.entries != [] && s.base.sequence != Sequence(st)
    ensures Park(st, Some(s)) == Outcome(Err(StagingBaseMoved(Sequence(st))), st)
  {
  }

  /** A parked group was built over the sequence it was parked at, so any later
      commit, of any kind, refuses it for good. */
  lemma ParkedNamesItsBase(h: Hash, w: World, st: Storage, catalog: seq<FamilyIdentity>, s: Session)
    requires SessionOk(h, w, st, catalog, s) && s.entries != []
    ensures Group(s).entries[0].sequence == Sequence(st) + 1
  {
    VerifiedStarts(h, s.entries, st.head, Sequence(st), Snapshot(st));
  }

  /** Parking and discarding leave the store as it was, whatever was built and
      whether or not the park was accepted. */
  lemma DiscardUndoesPark(st: Storage, s: Session)
    requires st.slot.None?
    ensures Discard(Park(st, Some(s)).storage).storage == st
    ensures Park(st, Some(s)).result.Ok? && s.entries != [] ==> Discard(Park(st, Some(s)).storage).result.Ok?
  {
  }

  // ---- Where the base check is too weak ----

  /** Evolving an empty family moves no sequence, no head and no counter, so a
      group parked before it is still accepted after it. */
  lemma EmptyEvolutionKeepsGroup(h: Hash, w: World, st: Storage, evolvedCatalog: seq<FamilyIdentity>, g: StagedGroup,
                                 stored: FamilyIdentity, evolved: FamilyIdentity)
    requires st.slot == Some(g) && GroupOk(h, w, st, g)
    ensures var moved := PersistEvolution(h, st, evolvedCatalog, stored, evolved, []);
            var m := Materialize(h, moved, w.identified, false);
            m.result.Ok? && m.storage.tables == OperationsOnTables(st.tables, AllOps(g.entries))
            && m.storage.registrations == st.registrations[evolved.table := evolved]
  {
    var moved := PersistEvolution(h, st, evolvedCatalog, stored, evolved, []);
    CurrentIsPlaced(w, st.registrations, AllOps(g.entries));
    MaterializeOpsMeaning(w, st.tables, AllOps(g.entries));
    AppendMeaning(moved, g.entries);
  }

  /** ... and the tables then hold exactly the log's rows if and only if the group
      leaves no row in the evolved table: otherwise it lands rows under the
      retired identity, which no registration names any more. */
  lemma ParkedAcrossEvolution(h: Hash, w: World, st: Storage, v: View, g: StagedGroup, stored: FamilyIdentity,
                              evolved: FamilyIdentity)
    requires Homed(w, st.registrations) && ViewOk(w, v) && Agrees(w, st.tables, v.rows, st.registrations)
    requires AllCurrent(w, st.registrations, AllOps(g.entries))
    requires Evolves(w, st, stored, evolved) && stored.Key() != evolved.Key()
    ensures var tables, rows :=
            OperationsOnTables(st.tables, AllOps(g.entries)), OperationsOnRows(v.rows, AllOps(g.entries));
            Agrees(w, tables, rows, st.registrations[evolved.table := evolved])
            <==> forall c :: c in tables ==> c.table != evolved.table
  {
    var tables, rows := OperationsOnTables(st.tables, AllOps(g.entries)), OperationsOnRows(v.rows, AllOps(g.entries));
    AgreesOperations(w, st.tables, v.rows, st.registrations, AllOps(g.entries));
    var registrations' := st.registrations[evolved.table := evolved];
    if forall c :: c in tables ==> c.table != evolved.table {
      RebindEmpty(w, tables, rows, st.registrations, evolved);
    }
  }
}
