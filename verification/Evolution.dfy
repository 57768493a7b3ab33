// Registration, and the in-place evolution of a registered family.
module Evolution {
  import opened ByteStrings
  import opened Errors
  import opened Versioning
  import opened CanonicalViews
  import opened Checkpoints
  import opened Catalogs
  import opened Stores
  import opened Invariants
  import opened Histories
  import opened Retention
  import opened Writes

  /** A prior stored generation: its schema hash, and the carry of one row forward,
      which fails on bytes that do not decode as the prior shape. */
  datatype Prior = Prior(schemaHash: Digest, convert: Bytes -> Option<Bytes>)

  datatype Descriptor = Descriptor(family: FamilyIdentity, priors: seq<Prior>)

  function FindPrior(priors: seq<Prior>, schemaHash: Digest): Option<Prior> {
    if priors == [] then None
    else if priors[0].schemaHash == schemaHash then Some(priors[0])
    else FindPrior(priors[1..], schemaHash)
  }

  /** The declared step from a stored identity: same family name, declared prior. */
  function StepFor(d: Descriptor, stored: FamilyIdentity): Option<Prior> {
    if stored.family != d.family.family then None else FindPrior(d.priors, stored.schemaHash)
  }

  datatype Row = Row(text: Bytes, record: Bytes)

  /** The text keys of a domain table, in table order. */
  function TextKeys(tables: Tables, table: Name): (r: seq<Bytes>)
    ensures forall t :: t in r <==> Coord(table, Domain(t)) in tables
  {
    LexOrder();
    var keys := set c | c in tables && c.table == table && c.slot.Domain? :: c.slot.text;
    assert forall t :: t in keys <==> Coord(table, Domain(t)) in tables by {
      forall t | Coord(table, Domain(t)) in tables ensures t in keys {
        var c := Coord(table, Domain(t));
        assert c.slot.text == t;
      }
    }
    InOrder(keys, Lex)
  }

  /** Every stored row carried forward, or the first decoding failure. */
  function CarryRows(tables: Tables, table: Name, prior: Prior, texts: seq<Bytes>): Result<seq<Row>>
    requires forall t :: t in texts ==> Coord(table, Domain(t)) in tables
  {
    if texts == [] then Ok([])
    else
      var text := texts[|texts| - 1];
      assert text in texts;
      var before := CarryRows(tables, table, prior, texts[..|texts| - 1]);
      if before.Err? then before
      else
        match prior.convert(tables[Coord(table, Domain(text))])
        case None => Err(VersionedPayloadDecode(table))
        case Some(record) => Ok(before.value + [Row(text, record)])
  }

  // ---- The logged evolution ----

  function Retracts(stored: FamilyIdentity, rows: seq<Row>): (ops: seq<LogOperation>)
    ensures |ops| == |rows|
  {
    seq(|rows|, i requires 0 <= i < |rows| => LogOperation(Retract, stored, Some(Domain(rows[i].text)), Tombstone))
  }

  function Asserts(evolved: FamilyIdentity, rows: seq<Row>): (ops: seq<LogOperation>)
    ensures |ops| == |rows|
  {
    seq(|rows|, i requires 0 <= i < |rows| => LogOperation(Assert, evolved, Some(Domain(rows[i].text)),
                                                           Record(rows[i].record)))
  }

  /** Rewrite the carried rows in place. */
  function RewriteRows(tables: Tables, table: Name, rows: seq<Row>): Tables {
    if rows == [] then tables
    else RewriteRows(tables, table,
                     rows[..|rows| - 1])[Coord(table, Domain(rows[|rows| - 1].text)) := rows[|rows| - 1].record]
  }

  /** The durable half of an evolution: rewritten rows, log entry and catalog row
      in one write. An empty family is only rewritten in the catalog. */
  function PersistEvolution(h: Hash, st: Storage, evolvedCatalog: seq<FamilyIdentity>, stored: FamilyIdentity,
                            evolved: FamilyIdentity, rows: seq<Row>): Storage
  {
    var table := evolved.table;
    if rows == [] then st.(registrations := st.registrations[table := evolved])
    else
      var ops := Retracts(stored, rows) + Asserts(evolved, rows);
      var st' := Commit(h, st, evolvedCatalog, ops, RewriteRows(st.tables, table, rows), st.identified);
      st'.(registrations := st.registrations[table := evolved])
  }

  datatype Registered = Registered(result: Result<()>, storage: Storage, catalog: seq<FamilyIdentity>)

  function CurrentSequence(st: Storage, engaged: Option<nat>): nat { engaged.GetOr(Sequence(st)) }

  /** Land an evolution whose rows all carried forward, and maintain history. A
      maintenance failure restores the in-memory catalog, though the write is durable. */
  function LandEvolution(h: Hash, st: Storage, engaged: Option<nat>, stored: FamilyIdentity, evolved: FamilyIdentity,
                         rows: seq<Row>, moved: seq<FamilyIdentity>): Registered
  {
    var st' := PersistEvolution(h, st, moved, stored, evolved, rows);
    if rows == [] then Registered(Ok(()), st', moved)
    else
      var maintained := Maintain(h, st', moved, CurrentSequence(st', engaged));
      if maintained.result.Ok? then Registered(Ok(()), maintained.storage, moved)
      else
        var restored := Evolved(moved, evolved.table, stored);
        Registered(Err(maintained.result.error), maintained.storage, if restored.Ok? then restored.value else moved)
  }

  /** Evolve a registered family. The in-memory catalog moves first; any failure
      restores it. */
  function EvolveFamily(h: Hash, st: Storage, catalog: seq<FamilyIdentity>, engaged: Option<nat>,
                        stored: FamilyIdentity, d: Descriptor, prior: Prior): Registered
  {
    var table := d.family.table;
    var rows := CarryRows(st.tables, table, prior, TextKeys(st.tables, table));
    if rows.Err? then Registered(Err(rows.error), st, catalog)
    else
      var moved := Evolved(catalog, table, d.family);
      if moved.Err? then Registered(Err(moved.error), st, catalog)
      else LandEvolution(h, st, engaged, stored, d.family, rows.value, moved.value)
  }

  function RegisterTable(h: Hash, st: Storage, catalog: seq<FamilyIdentity>, engaged: Option<nat>,
                         d: Descriptor): Registered {
    var state := FamilyRegistrationState(catalog, d.family);
    match state
    case Ok(Existing) => Registered(Ok(()), st, catalog)
    case Ok(New) =>
      var st' := st.(registrations := st.registrations[d.family.table := d.family]);
      var inserted := Inserted(catalog, d.family);
      if inserted.Err? then Registered(Err(inserted.error), st', catalog) else Registered(Ok(()), st', inserted.value)
    case Err(FamilyIdentityMismatch(_)) =>
      var stored := RegisteredFamily(catalog, d.family.table);
      if stored.Err? then Registered(Err(stored.error), st, catalog)
      else
        var step := StepFor(d, stored.value);
        if step.None? then Registered(Err(state.error), st, catalog)
        else EvolveFamily(h, st, catalog, engaged, stored.value, d, step.value)
    case Err(error) => Registered(Err(error), st, catalog)
  }

  /** An identified family never evolves; a new one starts its counter at one. */
  function RegisterIdentified(st: Storage, catalog: seq<FamilyIdentity>, id: FamilyIdentity): Registered {
    match FamilyRegistrationState(catalog, id)
    case Err(error) => Registered(Err(error), st, catalog)
    case Ok(Existing) => Registered(Ok(()), st, catalog)
    case Ok(New) =>
      var st' := st.(registrations := st.registrations[id.table := id], identified := st.identified[id.table := 1]);
      var inserted := Inserted(catalog, id);
      if inserted.Err? then Registered(Err(inserted.error), st', catalog) else Registered(Ok(()), st', inserted.value)
  }

  // ---- Concatenated operations ----

  lemma {:induction false} OperationsOnTablesConcat(tables: Tables, a: seq<LogOperation>, b: seq<LogOperation>)
    ensures OperationsOnTables(tables, a + b) == OperationsOnTables(OperationsOnTables(tables, a), b)
  {
    if b == [] {
      assert a + b == a;
    } else {
      assert (a + b)[..|a + b| - 1] == a + b[..|b| - 1];
      OperationsOnTablesConcat(tables, a, b[..|b| - 1]);
    }
  }

  lemma {:induction false} OperationsOnRowsConcat(rows: map<ViewKey, Bytes>, a: seq<LogOperation>, b: seq<LogOperation>)
    ensures OperationsOnRows(rows, a + b) == OperationsOnRows(OperationsOnRows(rows, a), b)
  {
    if b == [] {
      assert a + b == a;
    } else {
      assert (a + b)[..|a + b| - 1] == a + b[..|b| - 1];
      OperationsOnRowsConcat(rows, a, b[..|b| - 1]);
    }
  }

  // ---- What the carry touches ----

  function RowSlots(table: Name, rows: seq<Row>): set<Coord> { set r | r in rows :: Coord(table, Domain(r.text)) }

  lemma RowSlotsAppend(table: Name, init: seq<Row>, row: Row)
    ensures RowSlots(table, init + [row]) == RowSlots(table, init) + {Coord(table, Domain(row.text))}
  {
    assert forall r :: r in init + [row] <==> r in init || r == row;
  }

  lemma {:induction false} RetractsRemove(tables: Tables, stored: FamilyIdentity, rows: seq<Row>)
    ensures OperationsOnTables(tables, Retracts(stored, rows)) == tables - RowSlots(stored.table, rows)
  {
    if rows != [] {
      var init, row := rows[..|rows| - 1], rows[|rows| - 1];
      assert rows == init + [row];
      assert Retracts(stored, rows)[..|init|] == Retracts(stored, init);
      RetractsRemove(tables, stored, init);
      RowSlotsAppend(stored.table, init, row);
    }
  }

  lemma {:induction false} AssertsRewrite(tables: Tables, evolved: FamilyIdentity, rows: seq<Row>)
    ensures OperationsOnTables(tables, Asserts(evolved, rows)) == RewriteRows(tables, evolved.table, rows)
  {
    if rows != [] {
      assert Asserts(evolved, rows)[..|rows| - 1] == Asserts(evolved, rows[..|rows| - 1]);
      AssertsRewrite(tables, evolved, rows[..|rows| - 1]);
    }
  }

  /** Rewriting rows first removed is rewriting them in place. */
  lemma {:induction false} RewriteIgnoresOld(tables: Tables, table: Name, rows: seq<Row>, gone: set<Coord>)
    ensures RewriteRows(tables - gone, table, rows) == RewriteRows(tables, table, rows) - (gone - RowSlots(table, rows))
  {
    if rows != [] {
      var init, row := rows[..|rows| - 1], rows[|rows| - 1];
      assert rows == init + [row];
      RewriteIgnoresOld(tables, table, init, gone);
      RowSlotsAppend(table, init, row);
    } else {
      assert RowSlots(table, rows) == {};
    }
  }

  /** The tables the code leaves are the tables the logged operations leave. */
  lemma EvolutionTables(tables: Tables, stored: FamilyIdentity, evolved: FamilyIdentity, rows: seq<Row>)
    requires stored.table == evolved.table
    ensures OperationsOnTables(tables, Retracts(stored, rows) + Asserts(evolved, rows)) ==
            RewriteRows(tables, evolved.table, rows)
  {
    OperationsOnTablesConcat(tables, Retracts(stored, rows), Asserts(evolved, rows));
    RetractsRemove(tables, stored, rows);
    AssertsRewrite(tables - RowSlots(stored.table, rows), evolved, rows);
    RewriteIgnoresOld(tables, evolved.table, rows, RowSlots(stored.table, rows));
    assert RowSlots(evolved.table, rows) - RowSlots(evolved.table, rows) == {};
  }

  lemma {:induction false} CarryCovers(tables: Tables, table: Name, prior: Prior, texts: seq<Bytes>)
    requires forall t :: t in texts ==> Coord(table, Domain(t)) in tables
    requires CarryRows(tables, table, prior, texts).Ok?
    ensures forall t :: t in texts ==>
              Coord(table, Domain(t)) in RowSlots(table, CarryRows(tables, table, prior, texts).value)
    ensures CarryRows(tables, table, prior, texts).value == [] <==> texts == []
  {
    if texts != [] {
      var init, text := texts[..|texts| - 1], texts[|texts| - 1];
      assert texts == init + [text] && text in texts;
      CarryCovers(tables, table, prior, init);
      var before := CarryRows(tables, table, prior, init).value;
      var rows := CarryRows(tables, table, prior, texts).value;
      RowSlotsAppend(table, before, rows[|before|]);
    }
  }

  // ---- An evolution preserves the invariant ----

  lemma RebindHomed(w: World, registrations: map<Name, FamilyIdentity>, evolved: FamilyIdentity)
    requires Homed(w, registrations) && w.Home(evolved.Key()) == evolved.table
    ensures Homed(w, registrations[evolved.table := evolved])
  {
  }

  lemma RebindRows(w: World, tables: Tables, rows: map<ViewKey, Bytes>, registrations: map<Name, FamilyIdentity>,
                   evolved: FamilyIdentity)
    requires RowsInTables(w, tables, rows, registrations)
    requires forall c :: c in tables ==> c.table != evolved.table
    ensures RowsInTables(w, tables, rows, registrations[evolved.table := evolved])
  {
    var registrations' := registrations[evolved.table := evolved];
    forall k | k in rows
      ensures CoordOf(w, k) in tables && CoordOf(w, k).table in registrations'
      ensures registrations'[CoordOf(w, k).table].Key() == k.Family()
    {
      assert registrations'[CoordOf(w, k).table] == registrations[CoordOf(w, k).table];
    }
  }

  lemma RebindTables(tables: Tables, rows: map<ViewKey, Bytes>, registrations: map<Name, FamilyIdentity>,
                     evolved: FamilyIdentity)
    requires TablesInRows(tables, rows, registrations)
    requires forall c :: c in tables ==> c.table != evolved.table
    ensures TablesInRows(tables, rows, registrations[evolved.table := evolved])
  {
    var registrations' := registrations[evolved.table := evolved];
    forall c | c in tables
      ensures c.table in registrations' && KeyAt(registrations', c) in rows
              && rows[KeyAt(registrations', c)] == tables[c]
    {
      assert registrations'[c.table] == registrations[c.table];
    }
  }

  /** A table with no rows may be rebound to another identity. */
  lemma RebindEmpty(w: World, tables: Tables, rows: map<ViewKey, Bytes>, registrations: map<Name, FamilyIdentity>,
                    evolved: FamilyIdentity)
    requires Agrees(w, tables, rows, registrations)
    requires forall c :: c in tables ==> c.table != evolved.table
    ensures Agrees(w, tables, rows, registrations[evolved.table := evolved])
  {
    RebindRows(w, tables, rows, registrations, evolved);
    RebindTables(tables, rows, registrations, evolved);
  }

  /** Every row of a domain table in an agreeing store has a text key. */
  lemma DomainRowsAreTexts(w: World, tables: Tables, v: View, registrations: map<Name, FamilyIdentity>, table: Name,
                           c: Coord)
    requires Homed(w, registrations) && ViewOk(w, v) && Agrees(w, tables, v.rows, registrations)
    requires table !in w.identified && c in tables && c.table == table
    ensures c.slot.Domain?
  {
    assert KeyAt(registrations, c) in v.touched;
  }

  lemma EvolutionPlaced(w: World, registrations: map<Name, FamilyIdentity>, stored: FamilyIdentity,
                        evolved: FamilyIdentity, rows: seq<Row>)
    requires Homed(w, registrations) && stored.table in registrations && registrations[stored.table] == stored
    requires evolved.table == stored.table && w.Home(evolved.Key()) == evolved.table && evolved.table !in w.identified
    ensures AllCurrent(w, registrations, Retracts(stored, rows))
    ensures AllCurrent(w, registrations[evolved.table := evolved], Asserts(evolved, rows))
    ensures AllPlaced(w, Retracts(stored, rows) + Asserts(evolved, rows))
  {
  }

  /** The agreement across an evolution: retract every row under the retired
      identity, rebind the empty table, assert every row under the new one. */
  lemma EvolutionAgrees(w: World, st: Storage, v: View, stored: FamilyIdentity, evolved: FamilyIdentity, rows: seq<Row>)
    requires Homed(w, st.registrations) && ViewOk(w, v) && Agrees(w, st.tables, v.rows, st.registrations)
    requires stored.table in st.registrations && st.registrations[stored.table] == stored
    requires evolved.table == stored.table && w.Home(evolved.Key()) == evolved.table && evolved.table !in w.identified
    requires forall t :: Coord(evolved.table, Domain(t)) in st.tables ==>
               Coord(evolved.table, Domain(t)) in RowSlots(evolved.table, rows)
    ensures var ops, registrations' :=
            Retracts(stored, rows) + Asserts(evolved, rows), st.registrations[evolved.table := evolved];
            && Homed(w, registrations')
            && Agrees(w, RewriteRows(st.tables, evolved.table, rows), OperationsOnRows(v.rows, ops), registrations')
  {
    var retracts, asserts := Retracts(stored, rows), Asserts(evolved, rows);
    var tables, mid := OperationsOnTables(st.tables, retracts), OperationsOnRows(v.rows, retracts);
    EvolutionPlaced(w, st.registrations, stored, evolved, rows);
    AgreesOperations(w, st.tables, v.rows, st.registrations, retracts);
    RetractsRemove(st.tables, stored, rows);
    forall c | c in tables ensures c.table != evolved.table {
      if c.table == evolved.table { DomainRowsAreTexts(w, st.tables, v, st.registrations, evolved.table, c); }
    }
    RebindHomed(w, st.registrations, evolved);
    RebindEmpty(w, tables, mid, st.registrations, evolved);
    AgreesOperations(w, tables, mid, st.registrations[evolved.table := evolved], asserts);
    OperationsOnTablesConcat(st.tables, retracts, asserts);
    OperationsOnRowsConcat(v.rows, retracts, asserts);
    EvolutionTables(st.tables, stored, evolved, rows);
  }

  lemma EvolvedLists(st: Storage, catalog: seq<FamilyIdentity>, evolved: FamilyIdentity)
    requires Lists(catalog, st.registrations) && evolved.table in st.registrations
    ensures Evolved(catalog, evolved.table, evolved).Ok?
    ensures Lists(Evolved(catalog, evolved.table, evolved).value, st.registrations[evolved.table := evolved])
  {
    assert FindTable(catalog, evolved.table) == Lookup(st.registrations, evolved.table);
    FindTableEvolved(catalog, evolved.table, evolved, evolved.table);
    forall t ensures FindTable(Evolved(catalog, evolved.table, evolved).value, t) ==
             Lookup(st.registrations[evolved.table := evolved], t) {
      FindTableEvolved(catalog, evolved.table, evolved, t);
      assert FindTable(catalog, t) == Lookup(st.registrations, t);
    }
  }

  /** The step an evolution of this world may take. */
  ghost predicate Evolves(w: World, st: Storage, stored: FamilyIdentity, evolved: FamilyIdentity) {
    && stored.table in st.registrations && st.registrations[stored.table] == stored
    && evolved.table == stored.table && w.Home(evolved.Key()) == evolved.table && evolved.table !in w.identified
  }

  /** Moving only registrations and identifier counters keeps the invariant when
      the agreement survives the move. */
  lemma RegistrationsMove(h: Hash, w: World, st: Storage, catalog: seq<FamilyIdentity>, catalog': seq<FamilyIdentity>,
                          registrations: map<Name, FamilyIdentity>, identified: map<Name, nat>)
    requires Inv(h, w, st, catalog) && Homed(w, registrations) && Lists(catalog', registrations)
    requires Complete(st) ==> Agrees(w, st.tables, CurrentView(h, st).value.rows, registrations)
    ensures Inv(h, w, st.(registrations := registrations, identified := identified), catalog')
  {
    var st' := st.(registrations := registrations, identified := identified);
    var c := LatestCheckpoint(h, st).value;
    assert LatestCheckpoint(h, st') == LatestCheckpoint(h, st) && ViewOver(h, st', c) == ViewOver(h, st, c);
  }

  lemma EmptyTableRebinds(w: World, st: Storage, v: View, evolved: FamilyIdentity)
    requires Homed(w, st.registrations) && ViewOk(w, v) && Agrees(w, st.tables, v.rows, st.registrations)
    requires evolved.table !in w.identified && forall t :: Coord(evolved.table, Domain(t)) !in st.tables
    ensures Agrees(w, st.tables, v.rows, st.registrations[evolved.table := evolved])
  {
    forall d | d in st.tables ensures d.table != evolved.table {
      if d.table == evolved.table {
        DomainRowsAreTexts(w, st.tables, v, st.registrations, evolved.table, d);
        assert false;
      }
    }
    RebindEmpty(w, st.tables, v.rows, st.registrations, evolved);
  }

  lemma RebindPreserves(h: Hash, w: World, st: Storage, catalog: seq<FamilyIdentity>, stored: FamilyIdentity,
                        evolved: FamilyIdentity)
    requires Inv(h, w, st, catalog) && Evolves(w, st, stored, evolved)
    requires forall t :: Coord(evolved.table, Domain(t)) !in st.tables
    ensures Evolved(catalog, evolved.table, evolved).Ok?
    ensures Inv(h, w, st.(registrations := st.registrations[evolved.table := evolved]),
                Evolved(catalog, evolved.table, evolved).value)
  {
    EvolvedLists(st, catalog, evolved);
    RebindHomed(w, st.registrations, evolved);
    if Complete(st) { EmptyTableRebinds(w, st, CurrentView(h, st).value, evolved); }
    RegistrationsMove(h, w, st, catalog, Evolved(catalog, evolved.table, evolved).value,
                      st.registrations[evolved.table := evolved], st.identified);
    var st' := st.(registrations := st.registrations[evolved.table := evolved]);
    assert st' == st.(registrations := st.registrations[evolved.table := evolved], identified := st.identified);
  }

  /** What the append of an evolution entry keeps, before the catalog row moves. */
  lemma EvolutionAppends(h: Hash, w: World, st: Storage, catalog: seq<FamilyIdentity>, c: Option<Checkpoint>, e: Entry,
                         registrations: map<Name, FamilyIdentity>)
    requires Sequenced(st) && Linked(h, st) && st.policy.Some? && Continues(h, st, e) && AllPlaced(w, e.operations)
    requires LatestCheckpoint(h, st) == Ok(c) && CoversOk(st, c) && FoldOk(h, w, st, c)
    requires Homed(w, registrations) && Lists(catalog, registrations)
    requires Complete(st) ==> Agrees(w, AppendEntry(st, e).tables,
                                     OperationsOnRows(ViewOver(h, st, c).value.rows, e.operations), registrations)
    ensures Inv(h, w, AppendEntry(st, e).(registrations := registrations), catalog)
  {
    var st1 := AppendEntry(st, e);
    AppendSequenced(st, e);
    AppendLinked(h, st, e);
    AppendKeepsCheckpoint(h, st, e);
    AppendMovesView(h, w, st, c, e);
    RegistrationsOnly(h, st1, registrations, c);
  }

  lemma RegistrationsOnly(h: Hash, st: Storage, registrations: map<Name, FamilyIdentity>, c: Option<Checkpoint>)
    ensures var st' := st.(registrations := registrations);
            LatestCheckpoint(h, st') == LatestCheckpoint(h, st) && ViewOver(h, st', c) == ViewOver(h, st, c)
  {
  }

  lemma UnversionedEvolution(h: Hash, w: World, st: Storage, catalog: seq<FamilyIdentity>, evolved: FamilyIdentity,
                             ops: seq<LogOperation>, tables: Tables)
    requires Inv(h, w, st, catalog) && st.policy.None? && evolved.table in st.registrations
             && w.Home(evolved.Key()) == evolved.table
    ensures Evolved(catalog, evolved.table, evolved).Ok?
    ensures var moved := Evolved(catalog, evolved.table, evolved).value;
            Inv(h, w, Commit(h, st, moved, ops, tables,
                             st.identified).(registrations := st.registrations[evolved.table := evolved]), moved)
  {
    EvolvedLists(st, catalog, evolved);
    RebindHomed(w, st.registrations, evolved);
    var moved := Evolved(catalog, evolved.table, evolved).value;
    UnversionedPreserves(h, w, st, catalog, ops, tables, st.identified);
    var st1 := Commit(h, st, catalog, ops, tables, st.identified);
    assert !Complete(st1);
    RegistrationsMove(h, w, st1, catalog, moved, st.registrations[evolved.table := evolved], st.identified);
  }

  lemma VersionedEvolution(h: Hash, w: World, st: Storage, catalog: seq<FamilyIdentity>, stored: FamilyIdentity,
                           evolved: FamilyIdentity, rows: seq<Row>, moved: seq<FamilyIdentity>)
    requires Inv(h, w, st, catalog) && Evolves(w, st, stored, evolved) && st.policy.Some? && rows != []
    requires Lists(moved, st.registrations[evolved.table := evolved])
    requires forall t :: Coord(evolved.table, Domain(t)) in st.tables ==>
               Coord(evolved.table, Domain(t)) in RowSlots(evolved.table, rows)
    ensures Inv(h, w, PersistEvolution(h, st, moved, stored, evolved, rows), moved)
  {
    var c := LatestCheckpoint(h, st).value;
    var ops := Retracts(stored, rows) + Asserts(evolved, rows);
    EvolutionPlaced(w, st.registrations, stored, evolved, rows);
    EvolutionTables(st.tables, stored, evolved, rows);
    if Complete(st) { EvolutionAgrees(w, st, ViewOver(h, st, c).value, stored, evolved, rows); }
    DomainAdvance(st.identified, ops);
    CommitIsAppend(h, st, moved, ops);
    RebindHomed(w, st.registrations, evolved);
    EvolutionAppends(h, w, st, moved, c, NextEntry(h, st, moved, ops), st.registrations[evolved.table := evolved]);
  }

  /** Landing an evolution in one write keeps the invariant: the catalog never
      names a shape the rows do not have, and the log records the change as row
      history under both identities. */
  lemma PersistPreserves(h: Hash, w: World, st: Storage, catalog: seq<FamilyIdentity>, stored: FamilyIdentity,
                         evolved: FamilyIdentity, prior: Prior)
    requires Inv(h, w, st, catalog) && Evolves(w, st, stored, evolved)
    requires CarryRows(st.tables, evolved.table, prior, TextKeys(st.tables, evolved.table)).Ok?
    ensures Evolved(catalog, evolved.table, evolved).Ok?
    ensures var rows, moved := CarryRows(st.tables, evolved.table, prior, TextKeys(st.tables, evolved.table)).value,
                               Evolved(catalog, evolved.table, evolved).value;
            Inv(h, w, PersistEvolution(h, st, moved, stored, evolved, rows), moved)
  {
    EvolvedLists(st, catalog, evolved);
    var texts := TextKeys(st.tables, evolved.table);
    CarryCovers(st.tables, evolved.table, prior, texts);
    var rows, moved :=
        CarryRows(st.tables, evolved.table, prior, texts).value, Evolved(catalog, evolved.table, evolved).value;
    if rows == [] {
      RebindPreserves(h, w, st, catalog, stored, evolved);
    } else if st.policy.None? {
      UnversionedEvolution(h, w, st, catalog, evolved, Retracts(stored, rows) + Asserts(evolved, rows),
                           RewriteRows(st.tables, evolved.table, rows));
      UnversionedIgnoresCatalog(h, st, catalog, moved, Retracts(stored, rows) + Asserts(evolved, rows),
                                RewriteRows(st.tables, evolved.table, rows));
    } else {
      VersionedEvolution(h, w, st, catalog, stored, evolved, rows, moved);
    }
  }

  lemma UnversionedIgnoresCatalog(h: Hash, st: Storage, a: seq<FamilyIdentity>, b: seq<FamilyIdentity>,
                                  ops: seq<LogOperation>, tables: Tables)
    requires st.policy.None?
    ensures Commit(h, st, a, ops, tables, st.identified) == Commit(h, st, b, ops, tables, st.identified)
  {
  }

  lemma NewLists(st: Storage, catalog: seq<FamilyIdentity>, id: FamilyIdentity)
    requires Lists(catalog, st.registrations) && FamilyRegistrationState(catalog, id) == Ok(New)
    ensures Inserted(catalog, id) == Ok(catalog + [id]) && id.table !in st.registrations
    ensures Lists(catalog + [id], st.registrations[id.table := id])
  {
    assert FindTable(catalog, id.table) == Lookup(st.registrations, id.table);
    forall t ensures FindTable(catalog + [id], t) == Lookup(st.registrations[id.table := id], t) {
      FindTableAppend(catalog, id, t);
      assert FindTable(catalog, t) == Lookup(st.registrations, t);
    }
  }

  /** Registering a new table keeps the invariant. */
  lemma NewPreserves(h: Hash, w: World, st: Storage, catalog: seq<FamilyIdentity>, id: FamilyIdentity,
                     identified: map<Name, nat>)
    requires Inv(h, w, st, catalog) && w.Home(id.Key()) == id.table && FamilyRegistrationState(catalog, id) == Ok(New)
    ensures Inserted(catalog, id) == Ok(catalog + [id])
    ensures Inv(h, w, st.(registrations := st.registrations[id.table := id], identified := identified), catalog + [id])
  {
    NewLists(st, catalog, id);
    RebindHomed(w, st.registrations, id);
    if Complete(st) {
      assert forall c :: c in st.tables ==> st.tables[c] == st.tables[c] && c.table in st.registrations;
      RebindEmpty(w, st.tables, CurrentView(h, st).value.rows, st.registrations, id);
    }
    RegistrationsMove(h, w, st, catalog, catalog + [id], st.registrations[id.table := id], identified);
  }

  // ---- Where the code promises less than it says ----

  /** One table per family version. */
  ghost predicate OneHome(registrations: map<Name, FamilyIdentity>) {
    forall t, u :: t in registrations && u in registrations && registrations[t].Key() == registrations[u].Key() ==>
             t == u
  }

  lemma OneHomeMove(registrations: map<Name, FamilyIdentity>, id: FamilyIdentity)
    requires OneHome(registrations)
    ensures OneHome(registrations[id.table := id]) <==>
            forall t :: t in registrations && t != id.table ==> registrations[t].Key() != id.Key()
  {
    var registrations' := registrations[id.table := id];
    if OneHome(registrations') {
      forall t | t in registrations && t != id.table ensures registrations[t].Key() != id.Key() {
        assert registrations'[t] == registrations[t] && registrations'[id.table] == id;
      }
    }
  }

  lemma NewIsUnbound(st: Storage, catalog: seq<FamilyIdentity>, id: FamilyIdentity, t: Name)
    requires Lists(catalog, st.registrations) && FamilyRegistrationState(catalog, id) == Ok(New)
             && t in st.registrations
    ensures st.registrations[t].Key() != id.Key()
  {
    FindIdentityAbsent(catalog, id.Key());
    assert FindTable(catalog, t) == Lookup(st.registrations, t);
    FindTableNamesIt(catalog, t);
  }

  /** An accepted declaration leaves its family bound at its table, and every other
      binding alone. */
  lemma AcceptedBinds(h: Hash, st: Storage, catalog: seq<FamilyIdentity>, engaged: Option<nat>, d: Descriptor)
    requires Lists(catalog, st.registrations) && RegisterTable(h, st, catalog, engaged, d).result.Ok?
    ensures RegisterTable(h, st, catalog, engaged, d).storage.registrations ==
              st.registrations[d.family.table := d.family]
  {
    var table := d.family.table;
    assert FindTable(catalog, table) == Lookup(st.registrations, table);
    if FamilyRegistrationState(catalog, d.family).Err? {
      var stored := RegisteredFamily(catalog, table).value;
      EvolvedBinds(h, st, catalog, engaged, stored, d, StepFor(d, stored).value);
    }
  }

  lemma EvolvedBinds(h: Hash, st: Storage, catalog: seq<FamilyIdentity>, engaged: Option<nat>, stored: FamilyIdentity,
                     d: Descriptor, prior: Prior)
    requires EvolveFamily(h, st, catalog, engaged, stored, d, prior).result.Ok?
    ensures EvolveFamily(h, st, catalog, engaged, stored, d, prior).storage.registrations ==
              st.registrations[d.family.table := d.family]
  {
    var rows := CarryRows(st.tables, d.family.table, prior, TextKeys(st.tables, d.family.table)).value;
    var moved := Evolved(catalog, d.family.table, d.family).value;
    LandedBinds(h, st, engaged, stored, d.family, rows, moved);
  }

  lemma LandedBinds(h: Hash, st: Storage, engaged: Option<nat>, stored: FamilyIdentity, evolved: FamilyIdentity,
                    rows: seq<Row>, moved: seq<FamilyIdentity>)
    ensures LandEvolution(h, st, engaged, stored, evolved, rows, moved).storage.registrations ==
              st.registrations[evolved.table := evolved]
  {
    var st' := PersistEvolution(h, st, moved, stored, evolved, rows);
    MaintainMovesHistory(h, st', moved, CurrentSequence(st', engaged));
  }

  /** Registration of a new table checks that its family version is unbound; the
      evolution path does not. So an accepted declaration keeps one table per
      family version if and only if no other table already bears the version,
      and a new registration always does. */
  lemma EvolutionSkipsBindingCheck(h: Hash, st: Storage, catalog: seq<FamilyIdentity>, engaged: Option<nat>,
                                   d: Descriptor)
    requires OneHome(st.registrations) && Lists(catalog, st.registrations)
    requires RegisterTable(h, st, catalog, engaged, d).result.Ok?
    ensures OneHome(RegisterTable(h, st, catalog, engaged, d).storage.registrations) <==>
            forall t :: t in st.registrations && t != d.family.table ==> st.registrations[t].Key() != d.family.Key()
    ensures FamilyRegistrationState(catalog, d.family) == Ok(New) ==>
              OneHome(RegisterTable(h, st, catalog, engaged, d).storage.registrations)
  {
    AcceptedBinds(h, st, catalog, engaged, d);
    OneHomeMove(st.registrations, d.family);
    if FamilyRegistrationState(catalog, d.family) == Ok(New) {
      forall t | t in st.registrations && t != d.family.table ensures st.registrations[t].Key() != d.family.Key() {
        NewIsUnbound(st, catalog, d.family, t);
      }
    }
  }

  /** Two stored rows the log cannot tell apart: one view key, two payloads. */
  ghost predicate Clash(tables: Tables, registrations: map<Name, FamilyIdentity>, c: Coord, d: Coord) {
    && c in tables && d in tables && c.table in registrations && d.table in registrations
    && KeyAt(registrations, c) == KeyAt(registrations, d) && tables[c] != tables[d]
  }

  /** Tables with such a pair hold the rows of no view whatever. */
  lemma ClashHasNoView(tables: Tables, rows: map<ViewKey, Bytes>, registrations: map<Name, FamilyIdentity>, c: Coord,
                       d: Coord)
    requires Clash(tables, registrations, c, d)
    ensures !TablesInRows(tables, rows, registrations)
  {
  }

  /** The rows registered tables hold, as one view. */
  ghost function RowsHeld(tables: Tables, registrations: map<Name, FamilyIdentity>): map<ViewKey, Bytes>
    requires forall c :: c in tables ==> c.table in registrations
  {
    var keys := set c | c in tables :: KeyAt(registrations, c);
    map k | k in keys :: var c :| c in tables && KeyAt(registrations, c) == k; tables[c]
  }

  /** Registered tables are rows of some view if and only if no two of them clash,
      and with one table per family version none ever do. */
  lemma SharedVersionBreaksTheView(tables: Tables, registrations: map<Name, FamilyIdentity>)
    requires forall c :: c in tables ==> c.table in registrations
    ensures (exists rows :: TablesInRows(tables, rows, registrations))
            <==> !exists c, d :: Clash(tables, registrations, c, d)
    ensures OneHome(registrations) ==> !exists c, d :: Clash(tables, registrations, c, d)
  {
    if c, d :| Clash(tables, registrations, c, d) {
      forall rows ensures !TablesInRows(tables, rows, registrations) {
        ClashHasNoView(tables, rows, registrations, c, d);
      }
      assert registrations[c.table].Key() == registrations[d.table].Key() && c.table != d.table;
    } else {
      var rows := RowsHeld(tables, registrations);
      forall c | c in tables ensures KeyAt(registrations, c) in rows && rows[KeyAt(registrations, c)] == tables[c] {
        assert KeyAt(registrations, c) in rows;
        forall d | d in tables && KeyAt(registrations, d) == KeyAt(registrations, c) ensures tables[d] == tables[c] {
          assert !Clash(tables, registrations, c, d);
        }
      }
      assert TablesInRows(tables, rows, registrations);
    }
  }

  /** Maintenance runs after an evolution is durable, and its failure restores the
      in-memory catalog: after evolving a family with rows, memory still equals
      disk if and only if that maintenance succeeded. */
  lemma FailedMaintenanceSplitsCatalog(h: Hash, st: Storage, catalog: seq<FamilyIdentity>, engaged: Option<nat>,
                                       stored: FamilyIdentity, d: Descriptor, prior: Prior)
    requires Lists(catalog, st.registrations) && stored.table == d.family.table && stored != d.family
    requires stored.table in st.registrations && st.registrations[stored.table] == stored
    requires CarryRows(st.tables, d.family.table, prior, TextKeys(st.tables, d.family.table)).Ok?
    requires CarryRows(st.tables, d.family.table, prior, TextKeys(st.tables, d.family.table)).value != []
    ensures var out := EvolveFamily(h, st, catalog, engaged, stored, d, prior);
            Lists(out.catalog, out.storage.registrations) <==> out.result.Ok?
  {
    EvolvedLists(st, catalog, d.family);
    var rows := CarryRows(st.tables, d.family.table, prior, TextKeys(st.tables, d.family.table)).value;
    var moved := Evolved(catalog, d.family.table, d.family).value;
    var st' := PersistEvolution(h, st, moved, stored, d.family, rows);
    MaintainMovesHistory(h, st', moved, CurrentSequence(st', engaged));
    if Maintain(h, st', moved, CurrentSequence(st', engaged)).result.Err? {
      FindTableEvolved(catalog, d.family.table, d.family, d.family.table);
      FindTableEvolved(moved, d.family.table, stored, d.family.table);
      var restored := Evolved(moved, d.family.table, stored).value;
      assert FindTable(restored, d.family.table) == Some(stored);
      assert Lookup(st'.registrations, d.family.table) == Some(d.family);
    }
  }
}
