// What a declared table is accepted with: every stored row converted by the first
// prior declared at its schema hash, or nothing changed at all.
module Declarations {
  import opened ByteStrings
  import opened Errors
  import opened Versioning
  import opened CanonicalViews
  import opened Checkpoints
  import opened Catalogs
  import opened Stores
  import opened Invariants
  import opened Histories
  import opened Retention
  import opened Writes
  import opened Evolution
  import opened Imports
  import opened Lifetimes

  // ---- The declared step ----

  /** The nth prior is the first one declared at this schema hash. */
  ghost predicate FirstAt(priors: seq<Prior>, schemaHash: Digest, n: nat) {
    && n < |priors| && priors[n].schemaHash == schemaHash
    && forall m :: 0 <= m < n ==> priors[m].schemaHash != schemaHash
  }

  /** The declaration steps from the stored identity by its nth prior. */
  ghost predicate StepsBy(d: Descriptor, stored: FamilyIdentity, n: nat) {
    stored.family == d.family.family && FirstAt(d.priors, stored.schemaHash, n)
  }

  lemma {:induction false} FirstIsFound(priors: seq<Prior>, schemaHash: Digest, n: nat)
    requires FirstAt(priors, schemaHash, n)
    ensures FindPrior(priors, schemaHash) == Some(priors[n])
  {
    if n > 0 {
      assert priors[0].schemaHash != schemaHash;
      FirstIsFound(priors[1..], schemaHash, n - 1);
    }
  }

  lemma {:induction false} FoundIsFirst(priors: seq<Prior>, schemaHash: Digest) returns (n: nat)
    requires FindPrior(priors, schemaHash).Some?
    ensures FirstAt(priors, schemaHash, n)
  {
    n := 0;
    if priors[0].schemaHash != schemaHash {
      var m := FoundIsFirst(priors[1..], schemaHash);
      n := m + 1;
      forall k | 0 <= k < n ensures priors[k].schemaHash != schemaHash {
        if k > 0 { assert priors[1..][k - 1].schemaHash != schemaHash; }
      }
    }
  }

  lemma StepIsDeclared(d: Descriptor, stored: FamilyIdentity)
    ensures StepFor(d, stored).Some? <==> exists n: nat :: StepsBy(d, stored, n)
    ensures forall n: nat :: StepsBy(d, stored, n) ==> StepFor(d, stored) == Some(d.priors[n])
  {
    forall n: nat | StepsBy(d, stored, n) ensures StepFor(d, stored) == Some(d.priors[n]) {
      FirstIsFound(d.priors, stored.schemaHash, n);
    }
    if StepFor(d, stored).Some? {
      var n := FoundIsFirst(d.priors, stored.schemaHash);
      assert StepsBy(d, stored, n);
    }
  }

  // ---- The carried rows ----

  /** A row of a domain table. */
  predicate RowOf(table: Name, c: Coord) { c.table == table && c.slot.Domain? }

  /** Every row of the table converts. */
  ghost predicate Converts(tables: Tables, table: Name, convert: Bytes -> Option<Bytes>) {
    forall c :: c in tables && RowOf(table, c) ==> convert(tables[c]).Some?
  }

  /** The same slots: those of the table converted, the others as they were. */
  ghost predicate Converted(before: Tables, after: Tables, table: Name, convert: Bytes -> Option<Bytes>) {
    && after.Keys == before.Keys
    && forall c :: c in before ==>
         if RowOf(table, c) then convert(before[c]) == Some(after[c]) else after[c] == before[c]
  }

  lemma {:induction false} CarriedAt(tables: Tables, table: Name, prior: Prior, texts: seq<Bytes>)
    requires forall t :: t in texts ==> Coord(table, Domain(t)) in tables
    ensures CarryRows(tables, table, prior, texts).Ok?
            <==> forall t :: t in texts ==> prior.convert(tables[Coord(table, Domain(t))]).Some?
    ensures CarryRows(tables, table, prior, texts).Err? ==>
              CarryRows(tables, table, prior, texts).error == VersionedPayloadDecode(table)
    ensures CarryRows(tables, table, prior, texts).Ok? ==>
              forall r :: r in CarryRows(tables, table, prior, texts).value ==>
                r.text in texts && prior.convert(tables[Coord(table, Domain(r.text))]) == Some(r.record)
  {
    if texts != [] {
      var init, text := texts[..|texts| - 1], texts[|texts| - 1];
      assert texts == init + [text] && text in texts;
      CarriedAt(tables, table, prior, init);
    }
  }

  lemma {:induction false} RewrittenAt(tables: Tables, table: Name, rows: seq<Row>)
    ensures RewriteRows(tables, table, rows).Keys == tables.Keys + RowSlots(table, rows)
    ensures forall c :: c in RowSlots(table, rows) ==>
              exists r :: r in rows && c == Coord(table, Domain(r.text))
                  && RewriteRows(tables, table, rows)[c] == r.record
    ensures forall c :: c in tables && c !in RowSlots(table, rows) ==>
              RewriteRows(tables, table, rows)[c] == tables[c]
  {
    if rows != [] {
      var init, row := rows[..|rows| - 1], rows[|rows| - 1];
      assert rows == init + [row];
      RowSlotsAppend(table, init, row);
      RewrittenAt(tables, table, init);
    }
  }

  lemma RowsConvert(tables: Tables, table: Name, prior: Prior)
    ensures CarryRows(tables, table, prior, TextKeys(tables, table)).Ok? <==> Converts(tables, table, prior.convert)
    ensures CarryRows(tables, table, prior, TextKeys(tables, table)).Ok? ==>
              var rows := CarryRows(tables, table, prior, TextKeys(tables, table)).value;
              && Converted(tables, RewriteRows(tables, table, rows), table, prior.convert)
              && (rows == [] <==> forall c :: c in tables ==> !RowOf(table, c))
  {
    var texts := TextKeys(tables, table);
    CarriedAt(tables, table, prior, texts);
    forall c | c in tables && RowOf(table, c) ensures c == Coord(table, Domain(c.slot.text)) && c.slot.text in texts {}
    if CarryRows(tables, table, prior, texts).Ok? {
      var rows := CarryRows(tables, table, prior, texts).value;
      CarryCovers(tables, table, prior, texts);
      RewrittenAt(tables, table, rows);
      forall c | c in RowSlots(table, rows) ensures c in tables && RowOf(table, c) {
        var r :| r in rows && c == Coord(table, Domain(r.text));
        assert r.text in texts;
      }
      assert RewriteRows(tables, table, rows).Keys == tables.Keys;
      if rows == [] { assert texts == []; }
      if texts != [] { assert texts[0] in texts && RowOf(table, Coord(table, Domain(texts[0]))); }
    }
  }

  // ---- What a declaration does to the tables ----

  lemma CommitTables(h: Hash, st: Storage, catalog: seq<FamilyIdentity>, ops: seq<LogOperation>, tables: Tables,
                     identified: map<Name, nat>)
    ensures Commit(h, st, catalog, ops, tables, identified).tables == tables
  {
  }

  lemma PersistRewrites(h: Hash, st: Storage, moved: seq<FamilyIdentity>, stored: FamilyIdentity,
                        evolved: FamilyIdentity, rows: seq<Row>)
    ensures var st' := PersistEvolution(h, st, moved, stored, evolved, rows);
            st'.tables == RewriteRows(st.tables, evolved.table, rows)
                && st'.registrations == st.registrations[evolved.table := evolved]
  {
    if rows != [] {
      CommitTables(h, st, moved, Retracts(stored, rows) + Asserts(evolved, rows),
                   RewriteRows(st.tables, evolved.table, rows), st.identified);
    }
  }

  lemma LandRewrites(h: Hash, st: Storage, engaged: Option<nat>, stored: FamilyIdentity, evolved: FamilyIdentity,
                     rows: seq<Row>, moved: seq<FamilyIdentity>)
    ensures var st' := LandEvolution(h, st, engaged, stored, evolved, rows, moved).storage;
            st'.tables == RewriteRows(st.tables, evolved.table, rows)
                && st'.registrations == st.registrations[evolved.table := evolved]
  {
    var st' := PersistEvolution(h, st, moved, stored, evolved, rows);
    PersistRewrites(h, st, moved, stored, evolved, rows);
    MaintainMovesHistory(h, st', moved, CurrentSequence(st', engaged));
  }

  /** A declaration that steps from the identity its table is bound to rewrites every
      row of the table by the first prior declared at the stored schema hash, and no
      other slot, whether or not the maintenance after it succeeds; and if one row
      does not convert, it is refused and nothing changes. */
  lemma EvolutionConverts(h: Hash, st: Storage, catalog: seq<FamilyIdentity>, engaged: Option<nat>, d: Descriptor,
                          n: nat)
    requires Lists(catalog, st.registrations) && d.family.table in st.registrations
    requires var stored := st.registrations[d.family.table]; stored != d.family && StepsBy(d, stored, n)
    ensures var out, table, convert :=
            RegisterTable(h, st, catalog, engaged, d), d.family.table, d.priors[n].convert;
            if Converts(st.tables, table, convert)
            then Converted(st.tables, out.storage.tables, table, convert)
                 && out.storage.registrations == st.registrations[table := d.family]
            else out == Registered(Err(VersionedPayloadDecode(table)), st, catalog)
  {
    var table, stored := d.family.table, st.registrations[d.family.table];
    assert FindTable(catalog, table) == Lookup(st.registrations, table);
    StepIsDeclared(d, stored);
    FindTableEvolved(catalog, table, d.family, table);
    var prior := d.priors[n];
    RowsConvert(st.tables, table, prior);
    var carried := CarryRows(st.tables, table, prior, TextKeys(st.tables, table));
    CarriedAt(st.tables, table, prior, TextKeys(st.tables, table));
    if carried.Ok? {
      LandRewrites(h, st, engaged, stored, d.family, carried.value, Evolved(catalog, table, d.family).value);
    }
  }

  // ---- When a declaration is accepted ----

  /** No table of the store bears the family version. */
  ghost predicate Unbound(registrations: map<Name, FamilyIdentity>, id: FamilyIdentity) {
    forall t :: t in registrations ==>
      !(registrations[t].family == id.family && registrations[t].schemaHash == id.schemaHash)
  }

  lemma NewIsUnboundEverywhere(catalog: seq<FamilyIdentity>, registrations: map<Name, FamilyIdentity>,
                               id: FamilyIdentity)
    requires Lists(catalog, registrations) && DistinctTables(catalog) && id.table !in registrations
    ensures FamilyRegistrationState(catalog, id).Ok? <==> Unbound(registrations, id)
    ensures FamilyRegistrationState(catalog, id).Ok? ==> FamilyRegistrationState(catalog, id) == Ok(New)
  {
    assert FindTable(catalog, id.table) == Lookup(registrations, id.table);
    if FindIdentity(catalog, id.Key()).None? {
      FindIdentityAbsent(catalog, id.Key());
      forall t | t in registrations ensures registrations[t].Key() != id.Key() {
        assert FindTable(catalog, t) == Lookup(registrations, t);
        FindTableNamesIt(catalog, t);
      }
    } else {
      var bound := FindIdentity(catalog, id.Key()).value;
      FoundIdentity(catalog, id.Key());
      ListedOnce(catalog, bound);
      assert FindTable(catalog, bound.table) == Lookup(registrations, bound.table);
    }
  }

  lemma {:induction false} FoundIdentity(catalog: seq<FamilyIdentity>, fk: FamilyKey)
    requires FindIdentity(catalog, fk).Some?
    ensures FindIdentity(catalog, fk).value in catalog && FindIdentity(catalog, fk).value.Key() == fk
  {
    if catalog[0].Key() != fk { FoundIdentity(catalog[1..], fk); }
  }

  lemma {:induction false} ListedOnce(catalog: seq<FamilyIdentity>, id: FamilyIdentity)
    requires DistinctTables(catalog) && id in catalog
    ensures FindTable(catalog, id.table) == Some(id)
  {
    var i :| 0 <= i < |catalog| && catalog[i] == id;
    if i > 0 {
      assert catalog[0].table != catalog[i].table;
      assert catalog[1..][i - 1] == id;
      ListedOnce(catalog[1..], id);
    }
  }

  /** A declaration of an identity other than the one its table bears, with no prior
      declared for it, is refused with the mismatch; nothing changes. */
  lemma UndeclaredIsRefused(h: Hash, st: Storage, catalog: seq<FamilyIdentity>, engaged: Option<nat>, d: Descriptor)
    requires Lists(catalog, st.registrations) && d.family.table in st.registrations
    requires st.registrations[d.family.table] != d.family
    requires !exists n: nat :: StepsBy(d, st.registrations[d.family.table], n)
    ensures RegisterTable(h, st, catalog, engaged, d) ==
              Registered(Err(FamilyIdentityMismatch(d.family.table)), st, catalog)
  {
    assert FindTable(catalog, d.family.table) == Lookup(st.registrations, d.family.table);
    StepIsDeclared(d, st.registrations[d.family.table]);
  }

  /** What a caller can check before declaring a domain table. */
  ghost predicate Acceptable(h: Hash, st: Storage, engaged: Option<nat>, d: Descriptor)
    requires st.policy.Some?
  {
    var table := d.family.table;
    if table !in st.registrations then Unbound(st.registrations, d.family)
    else
      || st.registrations[table] == d.family
      || exists n: nat :: StepsBy(d, st.registrations[table], n) && Converts(st.tables, table, d.priors[n].convert)
           && ((exists c :: c in st.tables && RowOf(table, c)) ==>
                 !Blocked(st, LatestCheckpoint(h, st).Or(None), engaged.GetOr(Sequence(st) + 1), |st.versioned| + 1))
  }

  /** The maintenance after an evolution cuts no colliding checkpoint. */
  ghost predicate EvolutionClear(h: Hash, w: World, st: Storage, catalog: seq<FamilyIdentity>, engaged: Option<nat>,
                                 d: Descriptor)
  {
    forall stored, prior ::
      Declares(w, catalog, d, stored, prior) && Carried(st, d, prior).Ok? && Carried(st, d, prior).value != []
      && Evolved(catalog, d.family.table, d.family).Ok? ==>
        var landed := Landing(h, st, catalog, d, stored, prior);
        MaintainClear(h, landed, Evolved(catalog, d.family.table, d.family).value, engaged.GetOr(Sequence(landed)))
  }

  lemma EvolutionIsAcceptable(h: Hash, w: World, st: Storage, catalog: seq<FamilyIdentity>, engaged: Option<nat>,
                              d: Descriptor, n: nat)
    requires Inv(h, w, st, catalog) && DistinctTables(catalog) && MirrorOk(st) && st.policy.Some? && Complete(st)
    requires w.Home(d.family.Key()) == d.family.table && d.family.table !in w.identified
    requires EvolutionClear(h, w, st, catalog, engaged, d)
    requires d.family.table in st.registrations && st.registrations[d.family.table] != d.family
    requires StepsBy(d, st.registrations[d.family.table], n)
    ensures var table, convert := d.family.table, d.priors[n].convert;
            RegisterTable(h, st, catalog, engaged, d).result.Ok? <==>
            Converts(st.tables, table, convert)
            && ((exists c :: c in st.tables && RowOf(table, c)) ==>
                  !Blocked(st, LatestCheckpoint(h, st).value, engaged.GetOr(Sequence(st) + 1), |st.versioned| + 1))
  {
    var stored, prior := st.registrations[d.family.table], d.priors[n];
    assert FindTable(catalog, d.family.table) == Lookup(st.registrations, d.family.table);
    StepIsDeclared(d, stored);
    EvolutionConverts(h, st, catalog, engaged, d, n);
    RowsConvert(st.tables, d.family.table, prior);
    if Carried(st, d, prior).Ok? {
      if Carried(st, d, prior).value == [] {
        LandingInv(h, w, st, catalog, d, stored, prior);
        DeclaredIs(h, w, st, catalog, engaged, d, stored, prior);
      } else {
        EvolutionVerdict(h, w, st, catalog, engaged, d, stored, prior);
      }
    }
  }

  /** A declaration is accepted if and only if its table is unbound and no other table
      bears its family version, or its table already bears it, or it steps from what
      the table bears, every stored row converts, and the store is not blocked when
      there are rows. */
  lemma DeclarationVerdict(h: Hash, w: World, st: Storage, catalog: seq<FamilyIdentity>, engaged: Option<nat>,
                           d: Descriptor)
    requires Inv(h, w, st, catalog) && DistinctTables(catalog) && MirrorOk(st) && st.policy.Some? && Complete(st)
    requires w.Home(d.family.Key()) == d.family.table && d.family.table !in w.identified
    requires EvolutionClear(h, w, st, catalog, engaged, d)
    ensures RegisterTable(h, st, catalog, engaged, d).result.Ok? <==> Acceptable(h, st, engaged, d)
  {
    var table := d.family.table;
    if table !in st.registrations {
      FirstIsAcceptable(h, st, catalog, engaged, d);
    } else if st.registrations[table] == d.family {
      BoundIsAcceptable(h, st, catalog, engaged, d);
    } else {
      RebindingVerdict(h, w, st, catalog, engaged, d, RegisterTable(h, st, catalog, engaged, d).result);
    }
  }

  lemma RebindingVerdict(h: Hash, w: World, st: Storage, catalog: seq<FamilyIdentity>, engaged: Option<nat>,
                         d: Descriptor, result: Result<()>)
    requires Inv(h, w, st, catalog) && DistinctTables(catalog) && MirrorOk(st) && st.policy.Some? && Complete(st)
    requires w.Home(d.family.Key()) == d.family.table && d.family.table !in w.identified
    requires EvolutionClear(h, w, st, catalog, engaged, d)
    requires d.family.table in st.registrations && st.registrations[d.family.table] != d.family
    requires result == RegisterTable(h, st, catalog, engaged, d).result
    ensures result.Ok? <==> Acceptable(h, st, engaged, d)
  {
    var stored := st.registrations[d.family.table];
    if n: nat :| StepsBy(d, stored, n) {
      EvolutionIsAcceptable(h, w, st, catalog, engaged, d, n);
      OneStep(d, stored, n);
      StepDecides(h, st, engaged, d, n, result.Ok?);
    } else {
      UndeclaredIsRefused(h, st, catalog, engaged, d);
    }
  }

  /** With one step there is one thing to accept. */
  lemma StepDecides(h: Hash, st: Storage, engaged: Option<nat>, d: Descriptor, n: nat, ok: bool)
    requires st.policy.Some? && LatestCheckpoint(h, st).Ok?
    requires d.family.table in st.registrations && st.registrations[d.family.table] != d.family
    requires StepsBy(d, st.registrations[d.family.table], n)
    requires forall m: nat :: StepsBy(d, st.registrations[d.family.table], m) ==> m == n
    requires ok <==>
             Converts(st.tables, d.family.table, d.priors[n].convert)
             && ((exists c :: c in st.tables && RowOf(d.family.table, c)) ==>
                   !Blocked(st, LatestCheckpoint(h, st).value, engaged.GetOr(Sequence(st) + 1), |st.versioned| + 1))
    ensures ok <==> Acceptable(h, st, engaged, d)
  {
  }

  lemma OneStep(d: Descriptor, stored: FamilyIdentity, n: nat)
    requires StepsBy(d, stored, n)
    ensures forall m: nat :: StepsBy(d, stored, m) ==> m == n
  {
  }

  lemma FirstIsAcceptable(h: Hash, st: Storage, catalog: seq<FamilyIdentity>, engaged: Option<nat>, d: Descriptor)
    requires Lists(catalog, st.registrations) && DistinctTables(catalog) && d.family.table !in st.registrations
    ensures RegisterTable(h, st, catalog, engaged, d).result.Ok? <==> Unbound(st.registrations, d.family)
    ensures RegisterTable(h, st, catalog, engaged, d).result.Ok? ==>
              RegisterTable(h, st, catalog, engaged, d) ==
              Registered(Ok(()), st.(registrations := st.registrations[d.family.table := d.family]),
                         catalog + [d.family])
  {
    assert FindTable(catalog, d.family.table) == Lookup(st.registrations, d.family.table);
    NewIsUnboundEverywhere(catalog, st.registrations, d.family);
  }

  lemma BoundIsAcceptable(h: Hash, st: Storage, catalog: seq<FamilyIdentity>, engaged: Option<nat>, d: Descriptor)
    requires Lists(catalog, st.registrations) && d.family.table in st.registrations
    requires st.registrations[d.family.table] == d.family
    ensures RegisterTable(h, st, catalog, engaged, d) == Registered(Ok(()), st, catalog)
  {
    assert FindTable(catalog, d.family.table) == Lookup(st.registrations, d.family.table);
  }

  /** An identified table never evolves: its declaration is accepted if and only if
      the table bears exactly that identity, or is unbound as its version is
      everywhere. Only then does anything change: the table is bound, and its
      counter starts at one. */
  lemma IdentifiedVerdict(st: Storage, catalog: seq<FamilyIdentity>, id: FamilyIdentity)
    requires Lists(catalog, st.registrations) && DistinctTables(catalog)
    ensures var out := RegisterIdentified(st, catalog, id);
            && (out.result.Ok? <==>
                  if id.table in st.registrations then st.registrations[id.table] == id
                  else Unbound(st.registrations, id))
            && (id.table in st.registrations && st.registrations[id.table] != id ==>
                  out.result == Err(FamilyIdentityMismatch(id.table)))
            && (if out.result.Ok? && id.table !in st.registrations
                then out.storage == st.(registrations := st.registrations[id.table := id],
                                        identified := st.identified[id.table := 1])
                     && out.catalog == catalog + [id]
                else out.storage == st && out.catalog == catalog)
  {
    assert FindTable(catalog, id.table) == Lookup(st.registrations, id.table);
    if id.table !in st.registrations { NewIsUnboundEverywhere(catalog, st.registrations, id); }
  }
}
