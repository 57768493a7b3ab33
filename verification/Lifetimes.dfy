// Every operation of the store keeps everything the store promises: the invariant,
// the ledger of its whole history, and what the slot and the session rely on.
module Lifetimes {
  import opened ByteStrings
  import opened Errors
  import opened Versioning
  import opened CanonicalViews
  import opened Checkpoints
  import opened Catalogs
  import opened Stores
  import opened Invariants
  import opened Histories
  import opened Retention
  import opened Writes
  import opened Evolution
  import opened Rebuilding
  import opened Staging
  import opened StagingLaws
  import opened Recovery
  import opened Imports
  import opened Ledgers

  /** A store, the inventory its engine holds, and every entry it ever appended. */
  ghost predicate Sound(h: Hash, w: World, st: Storage, catalog: seq<FamilyIdentity>, history: seq<Entry>) {
    Inv(h, w, st, catalog) && DistinctTables(catalog) && Ledger(h, w, st, history) && Remembers(h, st, history)
  }

  // ---- Commits ----

  lemma AppendSound(h: Hash, w: World, st: Storage, catalog: seq<FamilyIdentity>, history: seq<Entry>, e: Entry)
    requires Sound(h, w, st, catalog, history) && NextOk(h, w, st, e) && AllCurrent(w, st.registrations, e.operations)
    ensures Sound(h, w, AppendEntry(st, e), catalog, history + [e])
  {
    AppendPreserves(h, w, st, catalog, e);
    AppendLedger(h, w, st, history, e);
    AppendRemembers(h, w, st, catalog, history, e);
  }

  /** A disciplined direct call is refused and changes nothing, or appends one
      entry the whole ledger accepts. */
  lemma DirectAppends(h: Hash, w: World, st: Storage, catalog: seq<FamilyIdentity>, call: Call)
    requires CatalogOk(w, st, catalog) && st.policy.Some? && Disciplined(w, call)
    ensures var done := Direct(h, st, catalog, call);
            && (done.result.Err? ==> done.storage == st)
            && (done.result.Ok? ==>
                  exists e :: done.storage == AppendEntry(st, e) && NextOk(h, w, st, e)
                      && AllCurrent(w, st.registrations, e.operations))
  {
    DirectIs(h, st, catalog, call);
    if Plan(st.tables, st.identified, catalog, call).Ok? {
      var ops := OpsOf(Plan(st.tables, st.identified, catalog, call).value);
      DirectIsAppend(h, w, st, catalog, call);
      PlanMints(w, st, catalog, call);
      NextEntryOk(h, w, st, catalog, ops);
    }
  }

  lemma NextEntryOk(h: Hash, w: World, st: Storage, catalog: seq<FamilyIdentity>, ops: seq<LogOperation>)
    requires st.policy.Some? && AllCurrent(w, st.registrations, ops) && Mints(st.identified, ops)
    ensures NextOk(h, w, st, NextEntry(h, st, catalog, ops))
    ensures Commit(h, st, catalog, ops, OperationsOnTables(st.tables, ops), AdvanceIdentified(st.identified, ops)) ==
            AppendEntry(st, NextEntry(h, st, catalog, ops))
  {
    CommitIsAppend(h, st, catalog, ops);
    CurrentIsPlaced(w, st.registrations, ops);
  }

  lemma AtomicAppends(h: Hash, w: World, st: Storage, catalog: seq<FamilyIdentity>, ws: seq<Write>)
    requires CatalogOk(w, st, catalog) && st.policy.Some? && DisciplinedWrites(w, ws)
    ensures var done := CommitAtomic(h, st, catalog, ws);
            && (done.result.Err? ==> done.storage == st)
            && (done.result.Ok? ==>
                  exists e :: done.storage == AppendEntry(st, e) && NextOk(h, w, st, e)
                      && AllCurrent(w, st.registrations, e.operations))
  {
    if CommitAtomic(h, st, catalog, ws).result.Ok? {
      var ops := OpsOf(Prepare(st.tables, catalog, ws).value);
      AtomicIsAppend(h, w, st, catalog, ws);
      PreparedCurrent(w, st, catalog, ws);
      DomainMints(st.identified, ops);
      NextEntryOk(h, w, st, catalog, ops);
    }
  }

  // ---- History ----

  lemma ConfiguredSound(h: Hash, w: World, st: Storage, catalog: seq<FamilyIdentity>, history: seq<Entry>, current: nat)
    requires Sound(h, w, st, catalog, history) && MaintainClear(h, st, catalog, current)
    ensures Sound(h, w, CompactConfigured(h, st, catalog, current).storage, catalog, history)
  {
    ConfiguredLedger(h, w, st, catalog, history, current);
    ConfiguredPreserves(h, w, st, catalog, current);
  }

  lemma ConfiguredPreserves(h: Hash, w: World, st: Storage, catalog: seq<FamilyIdentity>, current: nat)
    requires Inv(h, w, st, catalog) && MaintainClear(h, st, catalog, current)
    ensures var out := CompactConfigured(h, st, catalog, current);
            Inv(h, w, out.storage, catalog) && SameContent(h, st, out.storage)
  {
    SameContentRefl(h, w, st, catalog);
    if st.policy.Some? && |st.versioned| > st.policy.value.maximumLive && ConfiguredAcknowledgement(st, current).Ok? {
      CompactPreserves(h, w, st, catalog, current, st.policy.value.maximumLive,
                       ConfiguredAcknowledgement(st, current).value);
    }
  }

  lemma MaintainSound(h: Hash, w: World, st: Storage, catalog: seq<FamilyIdentity>, history: seq<Entry>, current: nat)
    requires Sound(h, w, st, catalog, history) && MaintainClear(h, st, catalog, current)
    ensures Sound(h, w, Maintain(h, st, catalog, current).storage, catalog, history)
  {
    ConfiguredSound(h, w, st, catalog, history, current);
    MaintainIs(h, st, catalog, current);
  }

  lemma MaintainIs(h: Hash, st: Storage, catalog: seq<FamilyIdentity>, current: nat)
    ensures st.policy.Some? ==>
              Maintain(h, st, catalog, current).storage == CompactConfigured(h, st, catalog, current).storage
  {
  }

  lemma CompactSound(h: Hash, w: World, st: Storage, catalog: seq<FamilyIdentity>, history: seq<Entry>, current: nat,
                     maximum: nat, ack: Acknowledgement)
    requires Sound(h, w, st, catalog, history) && CompactClear(h, st, catalog, current, maximum, ack)
    ensures Sound(h, w, CompactHistory(h, st, catalog, current, maximum, ack).storage, catalog, history)
  {
    CompactLedger(h, w, st, catalog, history, current, maximum, ack);
    CompactPreserves(h, w, st, catalog, current, maximum, ack);
  }

  lemma WriteSound(h: Hash, w: World, st: Storage, catalog: seq<FamilyIdentity>, history: seq<Entry>)
    requires Sound(h, w, st, catalog, history) && Collisionless(h, st, catalog) && WriteCheckpoint(h, st, catalog).Ok?
    ensures Sound(h, w, WriteCheckpoint(h, st, catalog).value, catalog, history)
  {
    var st' := WriteCheckpoint(h, st, catalog).value;
    WriteKeepsContent(h, w, st, catalog);
    WriteMovesCheckpoints(h, st, catalog);
    WriteStamped(h, w, st, catalog, history);
    CheckpointLedger(h, w, st, st', history);
  }

  // ---- Slot, intent, cursor ----

  lemma SlotSoundness(h: Hash, w: World, st: Storage, catalog: seq<FamilyIdentity>, history: seq<Entry>,
                      slot: Option<StagedGroup>, intent: Option<Intent>)
    requires Sound(h, w, st, catalog, history)
    ensures Sound(h, w, st.(slot := slot, intent := intent), catalog, history)
  {
    InvIgnoresSlot(h, w, st, catalog, slot, intent);
    ViewIgnoresSlot(h, st, slot, intent, st.cursor);
    assert st.(slot := slot, intent := intent, cursor := st.cursor) == st.(slot := slot, intent := intent);
    LedgerIgnoresSlot(h, w, st, history, slot, intent, st.cursor);
  }

  lemma LedgerIgnoresSlot(h: Hash, w: World, st: Storage, history: seq<Entry>, slot: Option<StagedGroup>,
                          intent: Option<Intent>, cursor: Option<MirrorHead>)
    requires Ledger(h, w, st, history) && MirrorOk(st.(cursor := cursor)) && QueueWhole(st.(cursor := cursor))
    ensures Ledger(h, w, st.(slot := slot, intent := intent, cursor := cursor), history)
  {
  }

  lemma ViewIgnoresSlot(h: Hash, st: Storage, slot: Option<StagedGroup>, intent: Option<Intent>,
                        cursor: Option<MirrorHead>)
    ensures CurrentView(h, st.(slot := slot, intent := intent, cursor := cursor)) == CurrentView(h, st)
    ensures LatestCheckpoint(h, st.(slot := slot, intent := intent, cursor := cursor)) == LatestCheckpoint(h, st)
  {
    var st' := st.(slot := slot, intent := intent, cursor := cursor);
    assert LatestCheckpoint(h, st') == LatestCheckpoint(h, st);
    if LatestCheckpoint(h, st).Ok? {
      assert ViewOver(h, st', LatestCheckpoint(h, st).value) == ViewOver(h, st, LatestCheckpoint(h, st).value);
    }
  }

  lemma InvIgnoresCursor(h: Hash, w: World, st: Storage, catalog: seq<FamilyIdentity>, cursor: Option<MirrorHead>)
    requires Inv(h, w, st, catalog)
    ensures Inv(h, w, st.(cursor := cursor), catalog)
  {
    var st', c := st.(cursor := cursor), LatestCheckpoint(h, st).value;
    assert LatestCheckpoint(h, st') == LatestCheckpoint(h, st) && ViewOver(h, st', c) == ViewOver(h, st, c);
  }

  lemma AcknowledgeMoves(st: Storage, head: MirrorHead)
    requires MirrorOk(st) && Sequenced(st)
    ensures var st' := Acknowledge(st, head).storage;
            st' == st.(cursor := st'.cursor) && MirrorOk(st') && CursorSequence(st') >= CursorSequence(st)
  {
    if Mirrored(st) { AcknowledgeMeaning(st, head); }
  }

  lemma AcknowledgeSound(h: Hash, w: World, st: Storage, catalog: seq<FamilyIdentity>, history: seq<Entry>,
                         head: MirrorHead)
    requires Sound(h, w, st, catalog, history)
    ensures Sound(h, w, Acknowledge(st, head).storage, catalog, history)
  {
    AcknowledgeMoves(st, head);
    var cursor := Acknowledge(st, head).storage.cursor;
    InvIgnoresCursor(h, w, st, catalog, cursor);
    ViewIgnoresSlot(h, st, st.slot, st.intent, cursor);
    LedgerIgnoresSlot(h, w, st, history, st.slot, st.intent, cursor);
    assert st.(slot := st.slot, intent := st.intent, cursor := cursor) == st.(cursor := cursor);
  }

  // ---- Materializing a group ----

  lemma {:induction false} GroupCursor(h: Hash, st: Storage, entries: seq<Entry>)
    requires VerifyGroup(h, entries, st.head, Sequence(st), Snapshot(st)) == Ok(())
    ensures Sequence(AppendEntries(st, entries)) == Sequence(st) + |entries|
            && Snapshot(AppendEntries(st, entries)) == Snapshot(st) + |entries|
  {
  }

  /** The last entry of a verified group, over the store the others leave. */
  lemma GroupLast(h: Hash, w: World, st: Storage, entries: seq<Entry>)
    requires entries != [] && AllCurrent(w, st.registrations, AllOps(entries)) && Mints(st.identified, AllOps(entries))
    requires VerifyGroup(h, entries, st.head, Sequence(st), Snapshot(st)) == Ok(())
    ensures var n := |entries| - 1;
            var before := AppendEntries(st, entries[..n]);
            && VerifyGroup(h, entries[..n], st.head, Sequence(st), Snapshot(st)) == Ok(())
            && AllCurrent(w, st.registrations, AllOps(entries[..n])) && Mints(st.identified, AllOps(entries[..n]))
            && NextOk(h, w, before, entries[n]) && AllCurrent(w, before.registrations, entries[n].operations)
  {
    var n := |entries| - 1;
    CurrentConcat(w, st.registrations, AllOps(entries[..n]), entries[n].operations);
    MintsConcat(st.identified, AllOps(entries[..n]), entries[n].operations);
    AppendMeaning(st, entries[..n]);
    GroupCursor(h, st, entries[..n]);
    CurrentIsPlaced(w, st.registrations, entries[n].operations);
  }

  lemma ConcatLast<T>(a: seq<T>, b: seq<T>)
    requires b != []
    ensures a + b == a + b[..|b| - 1] + [b[|b| - 1]]
  {
  }

  lemma {:induction false} GroupLedger(h: Hash, w: World, st: Storage, history: seq<Entry>, entries: seq<Entry>)
    requires Ledger(h, w, st, history) && AllCurrent(w, st.registrations, AllOps(entries))
             && Mints(st.identified, AllOps(entries))
    requires VerifyGroup(h, entries, st.head, Sequence(st), Snapshot(st)) == Ok(())
    ensures Ledger(h, w, AppendEntries(st, entries), history + entries)
  {
    if entries == [] {
      assert history + entries == history;
    } else {
      var init, e := entries[..|entries| - 1], entries[|entries| - 1];
      GroupLast(h, w, st, entries);
      GroupLedger(h, w, st, history, init);
      ConcatLast(history, entries);
      AppendLedger(h, w, AppendEntries(st, init), history + init, e);
    }
  }

  lemma {:induction false} GroupRemembers(h: Hash, w: World, st: Storage, catalog: seq<FamilyIdentity>,
                                          history: seq<Entry>, entries: seq<Entry>)
    requires Inv(h, w, st, catalog) && st.policy.Some? && Remembers(h, st, history)
    requires AllCurrent(w, st.registrations, AllOps(entries)) && Mints(st.identified, AllOps(entries))
    requires VerifyGroup(h, entries, st.head, Sequence(st), Snapshot(st)) == Ok(())
    ensures Remembers(h, AppendEntries(st, entries), history + entries)
  {
    if entries == [] {
      assert history + entries == history;
    } else {
      var init, e := entries[..|entries| - 1], entries[|entries| - 1];
      GroupLast(h, w, st, entries);
      GroupRemembers(h, w, st, catalog, history, init);
      GroupPreserves(h, w, st, catalog, init);
      ConcatLast(history, entries);
      AppendRemembers(h, w, AppendEntries(st, init), catalog, history + init, e);
    }
  }

  lemma GroupSound(h: Hash, w: World, st: Storage, catalog: seq<FamilyIdentity>, history: seq<Entry>,
                   entries: seq<Entry>)
    requires Sound(h, w, st, catalog, history) && AllCurrent(w, st.registrations, AllOps(entries))
             && Mints(st.identified, AllOps(entries))
    requires VerifyGroup(h, entries, st.head, Sequence(st), Snapshot(st)) == Ok(())
    ensures Sound(h, w, AppendEntries(st, entries), catalog, history + entries)
  {
    GroupPreserves(h, w, st, catalog, entries);
    GroupLedger(h, w, st, history, entries);
    GroupRemembers(h, w, st, catalog, history, entries);
  }

  // ---- Registration ----

  lemma RebindSound(h: Hash, w: World, st: Storage, catalog: seq<FamilyIdentity>, history: seq<Entry>,
                    registrations: map<Name, FamilyIdentity>, identified: map<Name, nat>, catalog': seq<FamilyIdentity>)
    requires Sound(h, w, st, catalog, history)
    requires st.registrations.Keys <= registrations.Keys && identified.Keys <= registrations.Keys
             && CountAlike(identified, st.identified)
    requires Inv(h, w, st.(registrations := registrations, identified := identified), catalog')
             && DistinctTables(catalog')
    ensures Sound(h, w, st.(registrations := registrations, identified := identified), catalog', history)
  {
    RebindLedger(h, w, st, history, registrations, identified);
    RebindView(h, st, registrations, identified);
  }

  lemma RebindLedger(h: Hash, w: World, st: Storage, history: seq<Entry>, registrations: map<Name, FamilyIdentity>,
                     identified: map<Name, nat>)
    requires Ledger(h, w, st, history)
    requires identified.Keys <= registrations.Keys && CountAlike(identified, st.identified)
    ensures Ledger(h, w, st.(registrations := registrations, identified := identified), history)
  {
    var after := AdvanceIdentified(map[], AllOps(history));
    forall t ensures NextIdentifier(identified, t) == NextIdentifier(after, t) {
      assert t in identified || t !in identified;
      assert t in st.identified || t !in st.identified;
    }
  }

  lemma RebindView(h: Hash, st: Storage, registrations: map<Name, FamilyIdentity>, identified: map<Name, nat>)
    ensures CurrentView(h, st.(registrations := registrations, identified := identified)) == CurrentView(h, st)
  {
    var st' := st.(registrations := registrations, identified := identified);
    assert LatestCheckpoint(h, st') == LatestCheckpoint(h, st);
    if LatestCheckpoint(h, st).Ok? {
      assert ViewOver(h, st', LatestCheckpoint(h, st).value) == ViewOver(h, st, LatestCheckpoint(h, st).value);
    }
  }

  lemma {:induction false} FoundIn(families: seq<FamilyIdentity>, table: Name)
    ensures FindTable(families, table).None? <==> forall id :: id in families ==> id.table != table
  {
    if families != [] {
      FoundIn(families[1..], table);
      assert families == [families[0]] + families[1..];
      if FindTable(families, table).None? {
        forall id | id in families ensures id.table != table { assert id == families[0] || id in families[1..]; }
      } else {
        FindTableNamesIt(families, table);
      }
    }
  }

  /** A first registration starts the table's counter where an absent one stands. */
  lemma NewSound(h: Hash, w: World, st: Storage, catalog: seq<FamilyIdentity>, history: seq<Entry>, id: FamilyIdentity,
                 identified: map<Name, nat>)
    requires Sound(h, w, st, catalog, history) && w.Home(id.Key()) == id.table
             && FamilyRegistrationState(catalog, id) == Ok(New)
    requires identified == st.identified || identified == st.identified[id.table := 1]
    ensures Inserted(catalog, id) == Ok(catalog + [id]) && id.table !in st.registrations
    ensures Sound(h, w, st.(registrations := st.registrations[id.table := id], identified := identified),
                  catalog + [id], history)
  {
    NewPreserves(h, w, st, catalog, id, identified);
    NewLists(st, catalog, id);
    FoundIn(catalog, id.table);
    NewCounters(st, id.table, identified);
    RebindSound(h, w, st, catalog, history, st.registrations[id.table := id], identified, catalog + [id]);
  }

  lemma NewCounters(st: Storage, table: Name, identified: map<Name, nat>)
    requires st.identified.Keys <= st.registrations.Keys && table !in st.registrations
    requires identified == st.identified || identified == st.identified[table := 1]
    ensures CountAlike(identified, st.identified)
  {
    forall t ensures NextIdentifier(identified, t) == NextIdentifier(st.identified, t) {
      assert table !in st.identified;
    }
  }

  // ---- Evolution ----

  lemma EvolvedDistinct(catalog: seq<FamilyIdentity>, id: FamilyIdentity)
    requires DistinctTables(catalog) && Evolved(catalog, id.table, id).Ok?
    ensures DistinctTables(Evolved(catalog, id.table, id).value)
  {
    FoundIn(catalog, id.table);
    if n :| 0 <= n < |catalog| && catalog[n].table == id.table {
      EvolvedAt(catalog, id.table, id, n);
    } else {
      EvolvedAt(catalog, id.table, id, |catalog|);
    }
  }

  /** An evolution with rows appends its entry and moves the catalog row. */
  lemma EvolutionEntry(h: Hash, w: World, st: Storage, moved: seq<FamilyIdentity>, stored: FamilyIdentity,
                       evolved: FamilyIdentity, rows: seq<Row>)
    requires Homed(w, st.registrations) && st.policy.Some? && Evolves(w, st, stored, evolved) && rows != []
    ensures var e := NextEntry(h, st, moved, Retracts(stored, rows) + Asserts(evolved, rows));
            && PersistEvolution(h, st, moved, stored, evolved, rows) ==
               AppendEntry(st, e).(registrations := st.registrations[evolved.table := evolved])
            && NextOk(h, w, st, e) && forall op :: op in e.operations ==> op.family.table in st.registrations
  {
    var ops := Retracts(stored, rows) + Asserts(evolved, rows);
    EvolutionPlaced(w, st.registrations, stored, evolved, rows);
    EvolutionTables(st.tables, stored, evolved, rows);
    DomainAdvance(st.identified, ops);
    DomainMints(st.identified, ops);
    CommitIsAppend(h, st, moved, ops);
  }

  lemma EvolutionLedger(h: Hash, w: World, st: Storage, history: seq<Entry>, e: Entry,
                        registrations: map<Name, FamilyIdentity>)
    requires Ledger(h, w, st, history) && NextOk(h, w, st, e) && st.registrations.Keys <= registrations.Keys
    requires forall op :: op in e.operations ==> op.family.table in registrations
    ensures Ledger(h, w, AppendEntry(st, e).(registrations := registrations), history + [e])
  {
    AppendChronicle(h, w, st, history, e);
    AppendRetains(st, history, e);
    AppendCounted(st, history, e, registrations);
    AppendMirror(st, e);
  }

  lemma RegistrationView(h: Hash, st: Storage, registrations: map<Name, FamilyIdentity>, history: seq<Entry>)
    requires Remembers(h, st, history)
    ensures Remembers(h, st.(registrations := registrations), history)
  {
    RebindView(h, st, registrations, st.identified);
    assert st.(registrations := registrations, identified := st.identified) == st.(registrations := registrations);
  }

  lemma RowsEvolveSound(h: Hash, w: World, st: Storage, catalog: seq<FamilyIdentity>, history: seq<Entry>,
                        moved: seq<FamilyIdentity>, stored: FamilyIdentity, evolved: FamilyIdentity, rows: seq<Row>)
    requires Sound(h, w, st, catalog, history) && Evolves(w, st, stored, evolved) && rows != []
    requires Inv(h, w, PersistEvolution(h, st, moved, stored, evolved, rows), moved) && DistinctTables(moved)
    ensures Sound(h, w, PersistEvolution(h, st, moved, stored, evolved, rows), moved,
                  history + [NextEntry(h, st, moved, Retracts(stored, rows) + Asserts(evolved, rows))])
  {
    var e := NextEntry(h, st, moved, Retracts(stored, rows) + Asserts(evolved, rows));
    var registrations := st.registrations[evolved.table := evolved];
    EvolutionEntry(h, w, st, moved, stored, evolved, rows);
    EvolutionLedger(h, w, st, history, e, registrations);
    AppendRemembers(h, w, st, catalog, history, e);
    RegistrationView(h, AppendEntry(st, e), registrations, history + [e]);
  }

  lemma EmptyEvolveSound(h: Hash, w: World, st: Storage, catalog: seq<FamilyIdentity>, history: seq<Entry>,
                         moved: seq<FamilyIdentity>, stored: FamilyIdentity, evolved: FamilyIdentity)
    requires Sound(h, w, st, catalog, history) && Evolves(w, st, stored, evolved)
    requires Inv(h, w, PersistEvolution(h, st, moved, stored, evolved, []), moved) && DistinctTables(moved)
    ensures Sound(h, w, PersistEvolution(h, st, moved, stored, evolved, []), moved, history)
  {
    var registrations := st.registrations[evolved.table := evolved];
    assert st.(registrations := registrations, identified := st.identified) ==
             PersistEvolution(h, st, moved, stored, evolved, []);
    assert CountAlike(st.identified, st.identified);
    RebindSound(h, w, st, catalog, history, registrations, st.identified, moved);
  }

  // ---- When maintenance fails ----

  /** A mirrored store past its budget refuses to compact, unless the checkpoint it
      would compact to already covers what the caller reads and has been shipped. */
  predicate Blocked(st: Storage, latest: Option<Checkpoint>, current: nat, retained: nat) {
    && Mirrored(st) && retained > st.policy.value.maximumLive
    && !(latest.Some? && latest.value.metadata.last >= current
         && st.cursor.Some? && st.cursor.value.sequence >= latest.value.metadata.last)
  }

  /** The last entry is neither covered nor shipped: a commit just landed. */
  ghost predicate JustCommitted(h: Hash, st: Storage, latest: Option<Checkpoint>) {
    LatestCheckpoint(h, st) == Ok(latest) && BaseOf(latest).after < Sequence(st) && CursorSequence(st) < Sequence(st)
  }

  lemma FreshCut(h: Hash, w: World, st: Storage, catalog: seq<FamilyIdentity>, latest: Option<Checkpoint>)
    requires Inv(h, w, st, catalog) && st.policy.Some? && Complete(st) && Collisionless(h, st, catalog)
    requires LatestCheckpoint(h, st) == Ok(latest) && BaseOf(latest).after < Sequence(st)
    ensures CutCheckpoint(h, st, catalog).Ok?
    ensures var k := CutCheckpoint(h, st, catalog).value;
            k.metadata.last == Sequence(st) && LatestCheckpoint(h, WriteCheckpoint(h, st, catalog).value) == Ok(Some(k))
  {
    SuffixReachesCursor(st, BaseOf(latest).after);
    CutOverSucceeds(h, w, st, catalog, latest);
    CutIs(h, st, catalog, latest);
    CheckpointPreserves(h, w, st, catalog);
  }

  lemma AlreadyCovers(h: Hash, st: Storage, catalog: seq<FamilyIdentity>, latest: Option<Checkpoint>, current: nat)
    requires LatestCheckpoint(h, st) == Ok(latest) && CoveredAt(h, st, current)
    ensures latest.Some? && latest.value.metadata.last >= current
    ensures EnsureCovering(h, st, catalog, current) == Outcome(Ok(latest.value), st)
  {
  }

  lemma CutsToCover(h: Hash, st: Storage, catalog: seq<FamilyIdentity>, latest: Option<Checkpoint>, current: nat)
    requires LatestCheckpoint(h, st) == Ok(latest) && !CoveredAt(h, st, current)
    ensures !(latest.Some? && latest.value.metadata.last >= current)
    ensures EnsureCovering(h, st, catalog, current) == Reload(h, st, WriteCheckpoint(h, st, catalog))
  {
  }

  lemma ReloadsCut(h: Hash, st: Storage, catalog: seq<FamilyIdentity>, k: Checkpoint)
    requires CutCheckpoint(h, st, catalog) == Ok(k)
    requires LatestCheckpoint(h, WriteCheckpoint(h, st, catalog).value) == Ok(Some(k))
    ensures Reload(h, st, WriteCheckpoint(h, st, catalog)) == Outcome(Ok(k), WriteCheckpoint(h, st, catalog).value)
  {
  }

  /** What a compaction after a fresh commit covers. */
  lemma FreshCovering(h: Hash, w: World, st: Storage, catalog: seq<FamilyIdentity>, latest: Option<Checkpoint>,
                      current: nat)
    requires Inv(h, w, st, catalog) && st.policy.Some? && Complete(st) && CoverClear(h, st, catalog, current)
    requires LatestCheckpoint(h, st) == Ok(latest) && BaseOf(latest).after < Sequence(st)
    ensures var out := EnsureCovering(h, st, catalog, current);
            && out.result.Ok? && out.storage.cursor == st.cursor
            && (if latest.Some? && latest.value.metadata.last >= current then out.result.value == latest.value
                else out.result.value.metadata.last == Sequence(st))
  {
    if CoveredAt(h, st, current) {
      AlreadyCovers(h, st, catalog, latest, current);
    } else {
      CutsToCover(h, st, catalog, latest, current);
      FreshCut(h, w, st, catalog, latest);
      ReloadsCut(h, st, catalog, CutCheckpoint(h, st, catalog).value);
      WriteMovesCheckpoints(h, st, catalog);
    }
  }

  lemma NothingQueuedLocally(st: Storage)
    requires MirrorOk(st) && !Mirrored(st)
    ensures Unshipped(st) == []
  {
  }

  /** The checks that can refuse a compaction once its checkpoint is there. */
  ghost predicate Acknowledged(h: Hash, st: Storage, catalog: seq<FamilyIdentity>, current: nat)
    requires st.policy.Some? && EnsureCovering(h, st, catalog, current).result.Ok?
  {
    var ack, covering := ConfiguredAcknowledgement(st, current), EnsureCovering(h, st, catalog, current);
    ack.Ok? && ValidateAcknowledgement(st, ack.value).Ok?
    && MirrorCovers(covering.storage, ack.value, covering.result.value.metadata.last).Ok?
  }

  lemma CompactIs(h: Hash, st: Storage, catalog: seq<FamilyIdentity>, current: nat)
    requires st.policy.Some? && |st.versioned| > st.policy.value.maximumLive
             && EnsureCovering(h, st, catalog, current).result.Ok?
    ensures CompactConfigured(h, st, catalog, current).result.Ok? <==> Acknowledged(h, st, catalog, current)
  {
  }

  lemma LocalAcknowledges(st: Storage, other: Storage, current: nat, covered: nat)
    requires MirrorOk(st) && st.policy.Some? && !Mirrored(st)
    ensures var ack := ConfiguredAcknowledgement(st, current);
            ack.Ok? && ValidateAcknowledgement(st, ack.value).Ok? && MirrorCovers(other, ack.value, covered).Ok?
  {
    NothingQueuedLocally(st);
  }

  lemma MirrorAcknowledges(st: Storage, other: Storage, current: nat, covered: nat)
    requires Mirrored(st) && other.cursor == st.cursor
    ensures var ack := ConfiguredAcknowledgement(st, current);
            && (ack.Ok? <==> st.cursor.Some?)
            && (ack.Ok? ==> ValidateAcknowledgement(st, ack.value).Ok?
                            && (MirrorCovers(other, ack.value, covered).Ok? <==> st.cursor.value.sequence >= covered))
  {
  }

  lemma AcknowledgedIs(h: Hash, st: Storage, catalog: seq<FamilyIdentity>, latest: Option<Checkpoint>, current: nat,
                       covering: Outcome<Checkpoint>)
    requires MirrorOk(st) && st.policy.Some? && CursorSequence(st) < Sequence(st)
    requires covering == EnsureCovering(h, st, catalog, current) && covering.result.Ok?
             && covering.storage.cursor == st.cursor
    requires if latest.Some? && latest.value.metadata.last >= current then covering.result.value == latest.value
             else covering.result.value.metadata.last == Sequence(st)
    requires |st.versioned| > st.policy.value.maximumLive
    ensures Acknowledged(h, st, catalog, current) <==> !Blocked(st, latest, current, |st.versioned|)
  {
    var covered := covering.result.value.metadata.last;
    if Mirrored(st) {
      MirrorAcknowledges(st, covering.storage, current, covered);
    } else {
      LocalAcknowledges(st, covering.storage, current, covered);
    }
  }

  /** The configured acknowledgement passes its own validation, and only a mirror
      that has shipped nothing has none. */
  lemma ConfiguredIsValid(h: Hash, st: Storage, catalog: seq<FamilyIdentity>, current: nat)
    requires MirrorOk(st) && st.policy.Some? && |st.versioned| > st.policy.value.maximumLive
    ensures var ack := ConfiguredAcknowledgement(st, current);
            && (ack.Ok? <==> !(Mirrored(st) && st.cursor.None?))
            && (ack.Ok? && MaintainClear(h, st, catalog, current) ==> CoverClear(h, st, catalog, current))
            && (ack.Err? ==> CompactConfigured(h, st, catalog, current).result.Err?)
  {
    if Mirrored(st) { MirrorAcknowledges(st, st, current, 0); } else { LocalAcknowledges(st, st, current, 0); }
  }

  lemma CompactVerdict(h: Hash, w: World, st: Storage, catalog: seq<FamilyIdentity>, latest: Option<Checkpoint>,
                       current: nat)
    requires Inv(h, w, st, catalog) && MirrorOk(st) && st.policy.Some? && Complete(st)
    requires MaintainClear(h, st, catalog, current)
    requires JustCommitted(h, st, latest) && |st.versioned| > st.policy.value.maximumLive
    ensures CompactConfigured(h, st, catalog, current).result.Ok? <==> !Blocked(st, latest, current, |st.versioned|)
  {
    ConfiguredIsValid(h, st, catalog, current);
    if ConfiguredAcknowledgement(st, current).Ok? {
      FreshCovering(h, w, st, catalog, latest, current);
      CompactIs(h, st, catalog, current);
      AcknowledgedIs(h, st, catalog, latest, current, EnsureCovering(h, st, catalog, current));
    }
  }

  /** Maintenance after a commit fails if and only if the store is blocked. */
  lemma MaintainVerdict(h: Hash, w: World, st: Storage, catalog: seq<FamilyIdentity>, latest: Option<Checkpoint>,
                        current: nat)
    requires Inv(h, w, st, catalog) && MirrorOk(st) && st.policy.Some? && Complete(st)
             && MaintainClear(h, st, catalog, current)
    requires JustCommitted(h, st, latest)
    ensures Maintain(h, st, catalog, current).result.Ok? <==> !Blocked(st, latest, current, |st.versioned|)
  {
    if |st.versioned| > st.policy.value.maximumLive { CompactVerdict(h, w, st, catalog, latest, current); }
  }

  lemma PersistedIsFresh(h: Hash, st: Storage, e: Entry, persisted: Storage, latest: Option<Checkpoint>, current: nat)
    requires LatestCheckpoint(h, st) == Ok(latest) && CoversOk(st, latest) && MirrorOk(st)
             && e.sequence == Sequence(st) + 1
    requires st.policy.Some? && persisted == AppendEntry(st, e).(registrations := persisted.registrations)
    ensures JustCommitted(h, persisted, latest) && Sequence(persisted) == Sequence(st) + 1
    ensures MirrorOk(persisted) && (Complete(st) ==> Complete(persisted)) && persisted.policy == st.policy
    ensures Blocked(persisted, latest, current, |persisted.versioned|)
            <==> Blocked(st, latest, current, |st.versioned| + 1)
    ensures current == Sequence(st) + 1 ==>
              (Blocked(st, latest, current, |st.versioned| + 1)
               <==> Mirrored(st) && |st.versioned| >= st.policy.value.maximumLive)
  {
    AppendKeepsCheckpoint(h, st, e);
    RegistrationsOnly(h, AppendEntry(st, e), persisted.registrations, latest);
    AppendMirror(st, e);
  }

  lemma LandIs(h: Hash, st: Storage, engaged: Option<nat>, stored: FamilyIdentity, evolved: FamilyIdentity,
               rows: seq<Row>, moved: seq<FamilyIdentity>)
    requires rows != []
    ensures var persisted := PersistEvolution(h, st, moved, stored, evolved, rows);
            LandEvolution(h, st, engaged, stored, evolved, rows, moved).result.Ok? <==>
            Maintain(h, persisted, moved, engaged.GetOr(Sequence(persisted))).result.Ok?
  {
  }

  /** A declaration that evolves the family bound at its table. */
  ghost predicate Declares(w: World, catalog: seq<FamilyIdentity>, d: Descriptor, stored: FamilyIdentity,
                           prior: Prior) {
    && FamilyRegistrationState(catalog, d.family) == Err(FamilyIdentityMismatch(d.family.table))
    && FindTable(catalog, d.family.table) == Some(stored) && StepFor(d, stored) == Some(prior)
    && w.Home(d.family.Key()) == d.family.table && d.family.table !in w.identified
  }

  lemma AppendVerdict(h: Hash, w: World, st: Storage, e: Entry, persisted: Storage, moved: seq<FamilyIdentity>,
                      latest: Option<Checkpoint>, current: nat)
    requires LatestCheckpoint(h, st) == Ok(latest) && CoversOk(st, latest) && MirrorOk(st)
             && e.sequence == Sequence(st) + 1
    requires st.policy.Some? && Complete(st)
             && persisted == AppendEntry(st, e).(registrations := persisted.registrations)
    requires Inv(h, w, persisted, moved) && MaintainClear(h, persisted, moved, current)
    ensures Sequence(persisted) == Sequence(st) + 1
    ensures Maintain(h, persisted, moved, current).result.Ok? <==> !Blocked(st, latest, current, |st.versioned| + 1)
  {
    PersistedIsFresh(h, st, e, persisted, latest, current);
    MaintainVerdict(h, w, persisted, moved, latest, current);
  }

  /** Landing an evolution with rows fails in its maintenance if and only if the
      store it lands in is blocked. */
  lemma LandVerdict(h: Hash, w: World, st: Storage, e: Entry, persisted: Storage, latest: Option<Checkpoint>,
                    engaged: Option<nat>, stored: FamilyIdentity, evolved: FamilyIdentity, rows: seq<Row>,
                    moved: seq<FamilyIdentity>)
    requires LatestCheckpoint(h, st) == Ok(latest) && CoversOk(st, latest) && MirrorOk(st)
             && e.sequence == Sequence(st) + 1
    requires st.policy.Some? && Complete(st)
             && persisted == AppendEntry(st, e).(registrations := persisted.registrations)
    requires Inv(h, w, persisted, moved) && MaintainClear(h, persisted, moved, engaged.GetOr(Sequence(st) + 1))
    requires rows != [] && persisted == PersistEvolution(h, st, moved, stored, evolved, rows)
    ensures LandEvolution(h, st, engaged, stored, evolved, rows, moved).result.Ok? <==>
            !Blocked(st, latest, engaged.GetOr(Sequence(st) + 1), |st.versioned| + 1)
  {
    AppendVerdict(h, w, st, e, persisted, moved, latest, engaged.GetOr(Sequence(st) + 1));
    LandIs(h, st, engaged, stored, evolved, rows, moved);
  }

  /** The rows an accepted declaration carries forward. */
  function Carried(st: Storage, d: Descriptor, prior: Prior): Result<seq<Row>> {
    CarryRows(st.tables, d.family.table, prior, TextKeys(st.tables, d.family.table))
  }

  /** What an accepted declaration writes, before any maintenance. */
  function Landing(h: Hash, st: Storage, catalog: seq<FamilyIdentity>, d: Descriptor, stored: FamilyIdentity,
                   prior: Prior): Storage
    requires Carried(st, d, prior).Ok? && Evolved(catalog, d.family.table, d.family).Ok?
  {
    PersistEvolution(h, st, Evolved(catalog, d.family.table, d.family).value, stored, d.family,
                     Carried(st, d, prior).value)
  }

  lemma DeclaredIs(h: Hash, w: World, st: Storage, catalog: seq<FamilyIdentity>, engaged: Option<nat>, d: Descriptor,
                   stored: FamilyIdentity, prior: Prior)
    requires Declares(w, catalog, d, stored, prior) && Carried(st, d, prior).Ok?
             && Evolved(catalog, d.family.table, d.family).Ok?
    ensures RegisterTable(h, st, catalog, engaged, d) ==
            LandEvolution(h, st, engaged, stored, d.family, Carried(st, d, prior).value,
                          Evolved(catalog, d.family.table, d.family).value)
    ensures RegisterTable(h, st, catalog, engaged, d) == EvolveFamily(h, st, catalog, engaged, stored, d, prior)
    ensures stored != d.family
  {
  }

  lemma LandingInv(h: Hash, w: World, st: Storage, catalog: seq<FamilyIdentity>, d: Descriptor, stored: FamilyIdentity,
                   prior: Prior)
    requires Inv(h, w, st, catalog) && DistinctTables(catalog) && Declares(w, catalog, d, stored, prior)
             && Carried(st, d, prior).Ok?
    ensures Evolves(w, st, stored, d.family) && Evolved(catalog, d.family.table, d.family).Ok?
    ensures Inv(h, w, Landing(h, st, catalog, d, stored, prior), Evolved(catalog, d.family.table, d.family).value)
    ensures DistinctTables(Evolved(catalog, d.family.table, d.family).value)
  {
    FindTableNamesIt(catalog, d.family.table);
    assert FindTable(catalog, d.family.table) == Lookup(st.registrations, d.family.table);
    PersistPreserves(h, w, st, catalog, stored, d.family, prior);
    EvolvedDistinct(catalog, d.family);
  }

  /** Evolving a family with rows succeeds, and leaves memory equal to disk, if and
      only if the store is not blocked: a mirrored store at its live budget, whose
      new entry no mirror can have acknowledged. A local store never fails. */
  lemma EvolutionVerdict(h: Hash, w: World, st: Storage, catalog: seq<FamilyIdentity>, engaged: Option<nat>,
                         d: Descriptor, stored: FamilyIdentity, prior: Prior)
    requires Inv(h, w, st, catalog) && DistinctTables(catalog) && MirrorOk(st) && st.policy.Some? && Complete(st)
    requires Declares(w, catalog, d, stored, prior) && Carried(st, d, prior).Ok? && Carried(st, d, prior).value != []
    requires Evolved(catalog, d.family.table, d.family).Ok? ==>
               var landed := Landing(h, st, catalog, d, stored, prior);
               MaintainClear(h, landed, Evolved(catalog, d.family.table, d.family).value,
                             engaged.GetOr(Sequence(landed)))
    ensures var out := RegisterTable(h, st, catalog, engaged, d);
            var blocked :=
                Blocked(st, LatestCheckpoint(h, st).value, engaged.GetOr(Sequence(st) + 1), |st.versioned| + 1);
            && (out.result.Ok? <==> !blocked)
            && (Lists(out.catalog, out.storage.registrations) <==> !blocked)
            && (engaged.None? ==> (blocked <==> Mirrored(st) && |st.versioned| >= st.policy.value.maximumLive))
  {
    LandingInv(h, w, st, catalog, d, stored, prior);
    DeclaredIs(h, w, st, catalog, engaged, d, stored, prior);
    var rows, moved := Carried(st, d, prior).value, Evolved(catalog, d.family.table, d.family).value;
    EvolutionEntry(h, w, st, moved, stored, d.family, rows);
    LandVerdict(h, w, st, NextEntry(h, st, moved, Retracts(stored, rows) + Asserts(d.family, rows)),
                Landing(h, st, catalog, d, stored, prior),
                LatestCheckpoint(h, st).value, engaged, stored, d.family, rows, moved);
    FailedMaintenanceSplitsCatalog(h, st, catalog, engaged, stored, d, prior);
  }
}
