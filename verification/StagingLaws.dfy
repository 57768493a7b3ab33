// Staging equals direct writes: the engaged store behaves as its shadow, the store
// the same calls would have left had they committed one by one.
module StagingLaws {
  import opened ByteStrings
  import opened Errors
  import opened Versioning
  import opened CanonicalViews
  import opened Checkpoints
  import opened Catalogs
  import opened Stores
  import opened Invariants
  import opened Retention
  import opened Writes
  import opened Rebuilding
  import opened Evolution
  import opened Staging

  /** The store the buffered entries would leave. */
  function Shadow(st: Storage, s: Session): Storage { AppendEntries(st, s.entries) }

  // ---- Appending a group ----

  lemma {:induction false} AdvanceConcat(identified: map<Name, nat>, a: seq<LogOperation>, b: seq<LogOperation>)
    ensures AdvanceIdentified(identified, a + b) == AdvanceIdentified(AdvanceIdentified(identified, a), b)
  {
    if b == [] {
      assert a + b == a;
    } else {
      assert (a + b)[..|a + b| - 1] == a + b[..|b| - 1];
      AdvanceConcat(identified, a, b[..|b| - 1]);
    }
  }

  lemma AllOpsOne(entries: seq<Entry>, e: Entry)
    ensures AllOps(entries + [e]) == AllOps(entries) + e.operations
  {
    assert (entries + [e])[..|entries|] == entries;
  }

  /** What appending a group moves, and what it does not. */
  lemma {:induction false} AppendMeaning(st: Storage, entries: seq<Entry>)
    ensures var st' := AppendEntries(st, entries);
            && st'.tables == OperationsOnTables(st.tables, AllOps(entries))
            && st'.identified == AdvanceIdentified(st.identified, AllOps(entries))
            && st'.versioned == st.versioned + entries
            && st'.head == HeadAfter(entries, st.head)
            && st'.policy == st.policy && st'.registrations == st.registrations
            && st'.slot == st.slot && st'.intent == st.intent && st'.cursor == st.cursor
  {
    if entries == [] {
      assert st.versioned + entries == st.versioned;
    } else {
      var n := |entries| - 1;
      AppendMeaning(st, entries[..n]);
      OperationsOnTablesConcat(st.tables, AllOps(entries[..n]), entries[n].operations);
      AdvanceConcat(st.identified, AllOps(entries[..n]), entries[n].operations);
      assert entries == entries[..n] + [entries[n]];
    }
  }

  // ---- The overlay is the last buffered effect ----

  /** A slot of the kind its table stores. */
  ghost predicate Proper(w: World, c: Coord) { c.slot.Identifier? <==> c.table in w.identified }

  function OverlaySlot(c: Coord): Coord { TextSlot(c.table, c.slot) }

  function LastAt(ops: seq<LogOperation>, c: Coord): Option<Payload> { LastEffect(Effects(ops, c.table), c.slot) }

  lemma LastAtOne(ops: seq<LogOperation>, op: LogOperation, c: Coord)
    requires op.key.Some?
    ensures LastAt(ops + [op], c) == if c == Coord(op.family.table, op.key.value) then Some(op.payload)
            else LastAt(ops, c)
  {
    assert (ops + [op])[..|ops|] == ops;
    var before := Effects(ops, c.table);
    assert before + [] == before;
    if op.family.table == c.table {
      assert (before + [Effect(op.key.value, op.payload)])[..|before|] == before;
    }
  }

  /** Buffered effects read back as the tables direct writes would hold. */
  lemma {:induction false} LastWins(w: World, tables: Tables, ops: seq<LogOperation>, c: Coord)
    requires AllPlaced(w, ops)
    ensures At(OperationsOnTables(tables, ops), c) ==
            match LastAt(ops, c) {
              case None => At(tables, c)
              case Some(Record(bytes)) => Some(bytes)
              case Some(Tombstone) => None
            }
  {
    if ops != [] {
      var init, op := ops[..|ops| - 1], ops[|ops| - 1];
      assert ops == init + [op] && op in ops;
      LastWins(w, tables, init, c);
      LastAtOne(init, op, c);
    }
  }

  /** The presence map agrees with the last buffered effect on every key. */
  ghost predicate OverlayTracks(w: World, overlay: map<Coord, bool>, ops: seq<LogOperation>) {
    forall c {:trigger OverlaySlot(c)} :: Proper(w, c) ==>
      (OverlaySlot(c) in overlay <==> LastAt(ops, c).Some?) &&
      (OverlaySlot(c) in overlay ==> overlay[OverlaySlot(c)] == LastAt(ops, c).value.Record?)
  }

  lemma OverlaySlotInjective(w: World, c: Coord, d: Coord)
    requires Proper(w, c) && Proper(w, d) && OverlaySlot(c) == OverlaySlot(d)
    ensures c == d
  {
    if c.slot.Identifier? { DecimalInjective(c.slot.id, d.slot.id); }
  }

  lemma OverlayTracksOne(w: World, overlay: map<Coord, bool>, ops: seq<LogOperation>, op: LogOperation)
    requires OverlayTracks(w, overlay, ops) && Placed(w, op)
    ensures OverlayTracks(w, OverlayOne(overlay, op), ops + [op])
  {
    var d := Coord(op.family.table, op.key.value);
    var overlay' := OverlayOne(overlay, op);
    assert Proper(w, d);
    forall c | Proper(w, c)
      ensures OverlaySlot(c) in overlay' <==> LastAt(ops + [op], c).Some?
      ensures OverlaySlot(c) in overlay' ==> overlay'[OverlaySlot(c)] == LastAt(ops + [op], c).value.Record?
    {
      LastAtOne(ops, op, c);
      if OverlaySlot(c) == OverlaySlot(d) { OverlaySlotInjective(w, c, d); }
    }
  }

  lemma {:induction false} OverlayTracksAll(w: World, overlay: map<Coord, bool>, ops: seq<LogOperation>,
                                            more: seq<LogOperation>)
    requires OverlayTracks(w, overlay, ops) && AllPlaced(w, more)
    ensures OverlayTracks(w, OverlayAll(overlay, more), ops + more)
  {
    if more == [] {
      assert ops + more == ops;
    } else {
      var init, op := more[..|more| - 1], more[|more| - 1];
      assert op in more;
      OverlayTracksAll(w, overlay, ops, init);
      OverlayTracksOne(w, OverlayAll(overlay, init), ops + init, op);
      assert ops + more == ops + init + [op];
    }
  }

  /** Every read through the session is a read of the shadow's tables. */
  lemma SessionReadsShadow(w: World, tables: Tables, s: Session, table: Name, key: RecordKey)
    requires OverlayTracks(w, s.overlay, AllOps(s.entries)) && AllPlaced(w, AllOps(s.entries))
    requires Proper(w, Coord(table, key))
    ensures var c := Coord(table, key);
            var after := OperationsOnTables(tables, AllOps(s.entries));
            && StagedPresent(s, c in tables, table, key) == (c in after)
            && StagedPreImage(s, At(tables, c), table, key) == At(after, c)
  {
    var c := Coord(table, key);
    assert OverlaySlot(c) == TextSlot(table, key);
    LastWins(w, tables, AllOps(s.entries), c);
  }

  // ---- Staged validation is validation against the shadow ----

  lemma StagedPrepareOneIsShadow(w: World, tables: Tables, s: Session, catalog: seq<FamilyIdentity>, write: Write)
    requires OverlayTracks(w, s.overlay, AllOps(s.entries)) && AllPlaced(w, AllOps(s.entries))
    requires write.key.Domain? && write.table !in w.identified
    ensures StagedPrepareOne(tables, s, catalog, write) ==
            PrepareOne(OperationsOnTables(tables, AllOps(s.entries)), catalog, write)
  {
    SessionReadsShadow(w, tables, s, write.table, write.key);
  }

  lemma {:induction false} StagedPrepareIsShadow(w: World, tables: Tables, s: Session, catalog: seq<FamilyIdentity>,
                                                 ws: seq<Write>)
    requires OverlayTracks(w, s.overlay, AllOps(s.entries)) && AllPlaced(w, AllOps(s.entries))
    requires DisciplinedWrites(w, ws)
    ensures StagedPrepare(tables, s, catalog, ws) == Prepare(OperationsOnTables(tables, AllOps(s.entries)), catalog, ws)
  {
    if ws != [] {
      StagedPrepareIsShadow(w, tables, s, catalog, ws[..|ws| - 1]);
      StagedPrepareOneIsShadow(w, tables, s, catalog, ws[|ws| - 1]);
    }
  }

  lemma StagedIdentifiedIsShadow(w: World, tables: Tables, s: Session, catalog: seq<FamilyIdentity>, kind: WriteKind,
                                 table: Name, id: nat, record: Bytes)
    requires OverlayTracks(w, s.overlay, AllOps(s.entries)) && AllPlaced(w, AllOps(s.entries))
    requires table in w.identified
    ensures StagedIdentified(tables, s, catalog, kind, table, id, record) ==
            PlanIdentified(OperationsOnTables(tables, AllOps(s.entries)), catalog, kind, table, id, record)
  {
    SessionReadsShadow(w, tables, s, table, Identifier(id));
  }

  // ---- Minted identifiers ----

  /** Every logged identified assert carries the identifier its table's counter
      stood at. */
  ghost predicate Mints(identified: map<Name, nat>, ops: seq<LogOperation>) {
    ops == [] ||
    var init, op := ops[..|ops| - 1], ops[|ops| - 1];
    && Mints(identified, init)
    && (op.operation.Assert? && op.key.Some? && op.key.value.Identifier? ==>
          op.key.value.id == NextIdentifier(AdvanceIdentified(identified, init), op.family.table))
  }

  lemma {:induction false} MintsConcat(identified: map<Name, nat>, a: seq<LogOperation>, b: seq<LogOperation>)
    ensures Mints(identified, a + b) <==> Mints(identified, a) && Mints(AdvanceIdentified(identified, a), b)
  {
    if b == [] {
      assert a + b == a;
    } else {
      assert (a + b)[..|a + b| - 1] == a + b[..|b| - 1];
      MintsConcat(identified, a, b[..|b| - 1]);
      AdvanceConcat(identified, a, b[..|b| - 1]);
    }
  }

  lemma {:induction false} DomainMints(identified: map<Name, nat>, ops: seq<LogOperation>)
    requires forall op :: op in ops ==> op.key.Some? && op.key.value.Domain?
    ensures Mints(identified, ops)
  {
    if ops != [] {
      assert ops[|ops| - 1] in ops;
      DomainMints(identified, ops[..|ops| - 1]);
    }
  }

  /** A disciplined call mints the next identifier or none. */
  lemma PlanMints(w: World, st: Storage, catalog: seq<FamilyIdentity>, call: Call)
    requires CatalogOk(w, st, catalog) && Disciplined(w, call)
    requires Plan(st.tables, st.identified, catalog, call).Ok?
    ensures Mints(st.identified, OpsOf(Plan(st.tables, st.identified, catalog, call).value))
  {
    var ops := OpsOf(Plan(st.tables, st.identified, catalog, call).value);
    match call {
      case Keyed(write) =>
        PreparedCurrent(w, st, catalog, [write]);
        DomainMints(st.identified, ops);
      case Batch(table, operations) =>
        PreparedCurrent(w, st, catalog, InTable(table, operations));
        DomainMints(st.identified, ops);
      case _ =>
        FindTableNamesIt(catalog, call.table);
        assert |ops| == 1 && ops[..0] == [];
        assert AdvanceIdentified(st.identified, ops[..0]) == st.identified;
    }
  }

  // ---- The session invariant ----

  ghost predicate StartsOk(st: Storage, s: Session) {
    forall c :: c in s.base.starts ==> NextIdentifier(st.identified, c.table) == c.next
  }

  ghost predicate PendingOk(identified: map<Name, nat>, s: Session) {
    forall t {:trigger t in s.pending} ::
      NextMint(s, identified, t) == NextIdentifier(AdvanceIdentified(identified, AllOps(s.entries)), t)
  }

  ghost predicate PreImagesOk(s: Session) {
    forall p :: p in s.preImages ==> p.entry < |s.entries|
  }

  /** The session still names this store's base. */
  ghost predicate BaseOk(h: Hash, st: Storage, catalog: seq<FamilyIdentity>, s: Session) {
    && st.policy.Some?
    && s.base.head == st.head && s.base.sequence == Sequence(st) && s.base.snapshot == Snapshot(st)
    && s.storeName == st.policy.value.storeName && s.schemaHash == StoreSchemaHash(h, catalog)
  }

  /** The session stands where its shadow stands. */
  ghost predicate StandsAt(s: Session, sh: Storage) {
    s.latestSequence == Sequence(sh) && s.latestSnapshot == Snapshot(sh) && s.previous == sh.head
  }

  /** The buffered entries would pass the checks of a materialize. */
  ghost predicate Verifies(h: Hash, st: Storage, s: Session) {
    && VerifyGroup(h, s.entries, st.head, Sequence(st), Snapshot(st)) == Ok(())
    && s.latestSequence == Sequence(st) + |s.entries| && s.latestSnapshot == Snapshot(st) + |s.entries|
    && s.previous == HeadAfter(s.entries, st.head)
  }

  lemma VerifiesOneMore(h: Hash, st: Storage, s: Session, ps: seq<Prepared>)
    requires Verifies(h, st, s)
    ensures Verifies(h, st, BufferPlan(h, s, ps))
  {
    assert BufferPlan(h, s, ps).entries[..|s.entries|] == s.entries;
  }

  /** What an engaged session is while no other commit lands. */
  ghost predicate SessionOk(h: Hash, w: World, st: Storage, catalog: seq<FamilyIdentity>, s: Session) {
    && BaseOk(h, st, catalog, s)
    && StandsAt(s, Shadow(st, s)) && Verifies(h, st, s)
    && AllCurrent(w, st.registrations, AllOps(s.entries))
    && OverlayTracks(w, s.overlay, AllOps(s.entries))
    && StartsOk(st, s) && PendingOk(st.identified, s) && PreImagesOk(s)
    && Mints(st.identified, AllOps(s.entries))
  }

  lemma CurrentIsPlaced(w: World, registrations: map<Name, FamilyIdentity>, ops: seq<LogOperation>)
    requires AllCurrent(w, registrations, ops)
    ensures AllPlaced(w, ops)
  {
  }

  lemma EngagedOk(h: Hash, w: World, st: Storage, catalog: seq<FamilyIdentity>)
    requires st.policy.Some?
    ensures SessionOk(h, w, st, catalog, Engage(h, st, catalog)) && Shadow(st, Engage(h, st, catalog)) == st
  {
    var s := Engage(h, st, catalog);
    forall t ensures NextMint(s, st.identified, t) ==
             NextIdentifier(AdvanceIdentified(st.identified, AllOps(s.entries)), t) {
      assert AllOps([]) == [];
    }
  }

  lemma StagedPlanIsShadow(w: World, st: Storage, s: Session, catalog: seq<FamilyIdentity>, call: Call)
    requires OverlayTracks(w, s.overlay, AllOps(s.entries)) && AllPlaced(w, AllOps(s.entries))
             && PendingOk(st.identified, s)
    requires Disciplined(w, call)
    ensures StagedPlan(st.tables, st.identified, s, catalog, call) ==
              Plan(Shadow(st, s).tables, Shadow(st, s).identified, catalog, call)
  {
    AppendMeaning(st, s.entries);
    match call {
      case Keyed(write) => StagedPrepareIsShadow(w, st.tables, s, catalog, [write]);
      case Batch(table, ops) => StagedPrepareIsShadow(w, st.tables, s, catalog, InTable(table, ops));
      case AssertIdentified(table, record) =>
        assert table in s.pending || table !in s.pending;
        StagedIdentifiedIsShadow(w, st.tables, s, catalog, Assertion, table, NextMint(s, st.identified, table), record);
      case MutateIdentified(table, id, record) =>
        StagedIdentifiedIsShadow(w, st.tables, s, catalog, Mutation, table, id, record);
      case RetractIdentified(table, id) =>
        StagedIdentifiedIsShadow(w, st.tables, s, catalog, Retraction, table, id, []);
    }
  }

  /** The buffered entry is the entry the shadow would mint. */
  lemma BufferedIsNext(h: Hash, st: Storage, catalog: seq<FamilyIdentity>, s: Session, ps: seq<Prepared>)
    requires BaseOk(h, st, catalog, s) && StandsAt(s, Shadow(st, s))
    ensures Shadow(st, s).policy == st.policy
    ensures BufferPlan(h, s, ps).entries == s.entries + [NextEntry(h, Shadow(st, s), catalog, OpsOf(ps))]
    ensures Shadow(st, BufferPlan(h, s, ps)) ==
              AppendEntry(Shadow(st, s), NextEntry(h, Shadow(st, s), catalog, OpsOf(ps)))
    ensures AllOps(BufferPlan(h, s, ps).entries) == AllOps(s.entries) + OpsOf(ps)
  {
    AppendMeaning(st, s.entries);
    var e := NextEntry(h, Shadow(st, s), catalog, OpsOf(ps));
    BufferedEntry(h, Shadow(st, s), catalog, s, ps);
    AppendEntriesOne(st, s.entries, e);
    AllOpsOne(s.entries, e);
  }

  lemma BufferedEntry(h: Hash, sh: Storage, catalog: seq<FamilyIdentity>, s: Session, ps: seq<Prepared>)
    requires sh.policy.Some? && s.storeName == sh.policy.value.storeName && s.schemaHash == StoreSchemaHash(h, catalog)
    requires StandsAt(s, sh)
    ensures BufferPlan(h, s, ps).entries == s.entries + [NextEntry(h, sh, catalog, OpsOf(ps))]
  {
  }

  lemma {:induction false} PreImagesAt(entry: nat, ps: seq<Prepared>)
    ensures forall p :: p in PreImagesOf(entry, ps) ==> p.entry == entry && p.operation < |ps|
  {
    if ps != [] { PreImagesAt(entry, ps[..|ps| - 1]); }
  }

  /** Minting moves the session's counter exactly as the assert moves the shadow's. */
  lemma PendingMoves(identified: map<Name, nat>, s: Session, s': Session, ops: seq<LogOperation>, call: Call)
    requires PendingOk(identified, s) && AllOps(s'.entries) == AllOps(s.entries) + ops
    requires s'.pending ==
               if call.AssertIdentified? then s.pending[call.table := NextMint(s, identified, call.table) + 1]
               else s.pending
    requires AdvanceIdentified(AdvanceIdentified(identified, AllOps(s.entries)), ops) ==
             LandedCounters(AdvanceIdentified(identified, AllOps(s.entries)), call)
    ensures PendingOk(identified, s')
  {
    AdvanceConcat(identified, AllOps(s.entries), ops);
    forall t
      ensures NextMint(s', identified, t) == NextIdentifier(AdvanceIdentified(identified, AllOps(s'.entries)), t)
    {
      assert t in s.pending || t !in s.pending;
    }
    assert call.AssertIdentified? ==> (call.table in s.pending || call.table !in s.pending);
  }

  lemma MintedKeeps(h: Hash, st: Storage, catalog: seq<FamilyIdentity>, s: Session, call: Call)
    requires BaseOk(h, st, catalog, s) && StartsOk(st, s) && PendingOk(st.identified, s)
    ensures var m := MintedFor(st, s, call);
            && BaseOk(h, st, catalog, m) && StartsOk(st, m)
            && m == s.(base := m.base, pending := m.pending)
            && m.pending ==
                 if call.AssertIdentified? then s.pending[call.table := NextMint(s, st.identified, call.table) + 1]
                 else s.pending
  {
  }

  lemma BufferedKeepsSession(h: Hash, w: World, st: Storage, catalog: seq<FamilyIdentity>, s: Session, call: Call,
                             ps: seq<Prepared>)
    requires SessionOk(h, w, st, catalog, s) && AllCurrent(w, st.registrations, OpsOf(ps))
    requires Mints(Shadow(st, s).identified, OpsOf(ps))
    requires AdvanceIdentified(Shadow(st, s).identified, OpsOf(ps)) == LandedCounters(Shadow(st, s).identified, call)
    ensures Shadow(st, s).policy == st.policy
    ensures SessionOk(h, w, st, catalog, BufferPlan(h, MintedFor(st, s, call), ps))
    ensures Shadow(st, BufferPlan(h, MintedFor(st, s, call), ps)) ==
              AppendEntry(Shadow(st, s), NextEntry(h, Shadow(st, s), catalog, OpsOf(ps)))
  {
    var m := MintedFor(st, s, call);
    var s' := BufferPlan(h, m, ps);
    MintedKeeps(h, st, catalog, s, call);
    AppendMeaning(st, s.entries);
    BufferedIsNext(h, st, catalog, m, ps);
    CurrentIsPlaced(w, st.registrations, OpsOf(ps));
    OverlayTracksAll(w, s.overlay, AllOps(s.entries), OpsOf(ps));
    PendingMoves(st.identified, s, s', OpsOf(ps), call);
    PreImagesKept(h, m, ps);
    VerifiesOneMore(h, st, m, ps);
    MintsConcat(st.identified, AllOps(s.entries), OpsOf(ps));
  }

  lemma PreImagesKept(h: Hash, s: Session, ps: seq<Prepared>)
    requires PreImagesOk(s)
    ensures PreImagesOk(BufferPlan(h, s, ps))
  {
    PreImagesAt(|s.entries|, ps);
  }

  /** One call: the engaged store answers as its shadow, and buffering it moves the
      shadow exactly as committing it would. */
  lemma StagedIsDirect(h: Hash, w: World, st: Storage, catalog: seq<FamilyIdentity>, s: Session, call: Call)
    requires CatalogOk(w, st, catalog) && SessionOk(h, w, st, catalog, s) && Disciplined(w, call)
    ensures var staged, direct := StagedCall(h, st, catalog, s, call), Direct(h, Shadow(st, s), catalog, call);
            && staged.result == direct.result
            && Shadow(st, staged.session) == direct.storage
            && SessionOk(h, w, st, catalog, staged.session)
  {
    var sh := Shadow(st, s);
    AppendMeaning(st, s.entries);
    CurrentIsPlaced(w, st.registrations, AllOps(s.entries));
    StagedPlanIsShadow(w, st, s, catalog, call);
    AlikeCalls(h, st, catalog, s, sh, call);
    var plan := Plan(sh.tables, sh.identified, catalog, call);
    if plan.Ok? {
      PlanCurrent(w, sh, catalog, call);
      PlanMints(w, sh, catalog, call);
      CallIsDirect(h, w, st, catalog, s, call, plan.value);
    }
  }

  /** A staged call and a direct call that validate alike. */
  lemma AlikeCalls(h: Hash, st: Storage, catalog: seq<FamilyIdentity>, s: Session, sh: Storage, call: Call)
    requires StagedPlan(st.tables, st.identified, s, catalog, call) == Plan(sh.tables, sh.identified, catalog, call)
    ensures var plan, staged, direct :=
            Plan(sh.tables, sh.identified, catalog, call), StagedCall(h, st, catalog, s, call),
                Direct(h, sh, catalog, call);
            && (plan.Ok? ==> (forall i :: 0 <= i < |plan.value| ==> plan.value[i].op.key.Some?)
                             && staged == BufferCall(h, st, s, call, plan.value)
                                && direct == CommitPlan(h, sh, catalog, call, plan.value))
            && (plan.Err? ==> staged == Staged(Err(plan.error), s) && direct == Done(Err(plan.error), sh, []))
  {
    DirectIs(h, sh, catalog, call);
  }

  lemma CallIsDirect(h: Hash, w: World, st: Storage, catalog: seq<FamilyIdentity>, s: Session, call: Call,
                     ps: seq<Prepared>)
    requires SessionOk(h, w, st, catalog, s) && AllCurrent(w, st.registrations, OpsOf(ps))
    requires Mints(Shadow(st, s).identified, OpsOf(ps))
    requires forall i :: 0 <= i < |ps| ==> ps[i].op.key.Some?
    requires forall op :: op in OpsOf(ps) ==> op.key.Some?
    requires LandedTables(Shadow(st, s).tables, call, OpsOf(ps)) == OperationsOnTables(Shadow(st, s).tables, OpsOf(ps))
    requires LandedCounters(Shadow(st, s).identified, call) == AdvanceIdentified(Shadow(st, s).identified, OpsOf(ps))
    ensures var staged, direct := BufferCall(h, st, s, call, ps), CommitPlan(h, Shadow(st, s), catalog, call, ps);
            && staged.result == direct.result
            && Shadow(st, staged.session) == direct.storage
            && SessionOk(h, w, st, catalog, staged.session)
  {
    BufferedKeepsSession(h, w, st, catalog, s, call, ps);
    CommitIsAppend(h, Shadow(st, s), catalog, OpsOf(ps));
  }

  // ---- Announced deltas ----

  /** What validation records of an operation beside the operation itself. */
  ghost predicate WellPrepared(ps: seq<Prepared>) {
    forall i :: 0 <= i < |ps| ==>
      ps[i].op.key.Some? &&
      match ps[i].op.operation
      case Assert | Mutate => ps[i].op.payload == Record(ps[i].record)
      case Retract => true
      case _ => false
  }

  lemma {:induction false} PreparedWell(tables: Tables, catalog: seq<FamilyIdentity>, ws: seq<Write>)
    requires Prepare(tables, catalog, ws).Ok?
    ensures WellPrepared(Prepare(tables, catalog, ws).value)
  {
    if ws != [] { PreparedWell(tables, catalog, ws[..|ws| - 1]); }
  }

  lemma PlanWell(tables: Tables, identified: map<Name, nat>, catalog: seq<FamilyIdentity>, call: Call)
    requires Plan(tables, identified, catalog, call).Ok?
    ensures WellPrepared(Plan(tables, identified, catalog, call).value)
  {
    if call.Keyed? { PreparedWell(tables, catalog, [call.write]); }
    if call.Batch? { PreparedWell(tables, catalog, InTable(call.batchTable, call.operations)); }
  }

  lemma {:induction false} FindAppend(a: seq<PreImage>, b: seq<PreImage>, entry: nat, operation: nat)
    ensures FindPreImage(a + b, entry, operation) ==
            if FindPreImage(a, entry, operation).Some? then FindPreImage(a, entry, operation)
            else FindPreImage(b, entry, operation)
  {
    if a == [] {
      assert a + b == b;
    } else {
      assert (a + b)[1..] == a[1..] + b;
      FindAppend(a[1..], b, entry, operation);
    }
  }

  lemma {:induction false} FindNone(a: seq<PreImage>, entry: nat, operation: nat)
    requires forall p :: p in a ==> !(p.entry == entry && p.operation == operation)
    ensures FindPreImage(a, entry, operation) == None
  {
    if a != [] {
      assert a[0] in a;
      FindNone(a[1..], entry, operation);
    }
  }

  lemma {:induction false} FindOwn(entry: nat, ps: seq<Prepared>, j: nat)
    requires j < |ps|
    ensures FindPreImage(PreImagesOf(entry, ps), entry, j) == if ps[j].op.operation.Retract? then Some(ps[j].record)
            else None
  {
    var n := |ps| - 1;
    var own := if ps[n].op.operation.Retract? then [PreImage(entry, n, ps[n].record)] else [];
    PreImagesAt(entry, ps[..n]);
    FindAppend(PreImagesOf(entry, ps[..n]), own, entry, j);
    if j < n {
      FindOwn(entry, ps[..n], j);
      FindNone(own, entry, j);
    } else {
      FindNone(PreImagesOf(entry, ps[..n]), entry, j);
    }
  }

  /** The pre-images find exactly what this plan removed. */
  ghost predicate Finds(preImages: seq<PreImage>, entry: nat, ps: seq<Prepared>) {
    forall j :: 0 <= j < |ps| ==>
      FindPreImage(preImages, entry, j) == if ps[j].op.operation.Retract? then Some(ps[j].record) else None
  }

  lemma {:induction false} AnnounceOwn(preImages: seq<PreImage>, entry: nat, ps: seq<Prepared>, snapshot: nat)
    requires WellPrepared(ps) && Finds(preImages, entry, ps)
    ensures AnnounceOps(preImages, entry, OpsOf(ps), snapshot) == DeltasOf(ps, snapshot)
  {
    if ps != [] {
      var n := |ps| - 1;
      AnnounceOwn(preImages, entry, ps[..n], snapshot);
      assert OpsOf(ps)[..n] == OpsOf(ps[..n]);
      assert DeltasOf(ps, snapshot) == DeltasOf(ps[..n], snapshot)
                                       + [Delta(ps[n].op.operation, ps[n].op.family.table, ps[n].op.key.value,
                                                snapshot, ps[n].record)];
    }
  }

  lemma {:induction false} AnnounceOpsIgnores(a: seq<PreImage>, b: seq<PreImage>, entry: nat, ops: seq<LogOperation>,
                                              snapshot: nat)
    requires forall p :: p in b ==> p.entry > entry
    ensures AnnounceOps(a + b, entry, ops, snapshot) == AnnounceOps(a, entry, ops, snapshot)
  {
    if ops != [] {
      var n := |ops| - 1;
      AnnounceOpsIgnores(a, b, entry, ops[..n], snapshot);
      FindAppend(a, b, entry, n);
      FindNone(b, entry, n);
    }
  }

  /** Pre-images of later entries do not disturb earlier announcements. */
  lemma {:induction false} AnnounceIgnores(a: seq<PreImage>, b: seq<PreImage>, entries: seq<Entry>)
    requires forall p :: p in b ==> p.entry >= |entries|
    ensures Announce(a + b, entries) == Announce(a, entries)
  {
    if entries != [] {
      var n := |entries| - 1;
      AnnounceIgnores(a, b, entries[..n]);
      AnnounceOpsIgnores(a, b, n, entries[n].operations, entries[n].snapshot);
    }
  }

  lemma AnnounceOneMore(h: Hash, s: Session, ps: seq<Prepared>)
    requires PreImagesOk(s) && WellPrepared(ps)
    ensures var s' := BufferPlan(h, s, ps);
            Announce(s'.preImages, s'.entries) == Announce(s.preImages, s.entries) + DeltasOf(ps, s'.latestSnapshot)
  {
    var n, own := |s.entries|, PreImagesOf(|s.entries|, ps);
    var s' := BufferPlan(h, s, ps);
    PreImagesAt(n, ps);
    AnnounceIgnores(s.preImages, own, s.entries);
    forall j | 0 <= j < |ps|
      ensures FindPreImage(s.preImages + own, n, j) == if ps[j].op.operation.Retract? then Some(ps[j].record) else None
    {
      FindAppend(s.preImages, own, n, j);
      FindNone(s.preImages, n, j);
      FindOwn(n, ps, j);
    }
    AnnounceOwn(s.preImages + own, n, ps, s'.latestSnapshot);
    assert s'.entries[..n] == s.entries;
  }

  /** Only what direct writes deliver: deltas of domain tables. */
  function DomainDeltas(w: World, deltas: seq<Delta>): seq<Delta> {
    if deltas == [] then []
    else
      var last := deltas[|deltas| - 1];
      DomainDeltas(w, deltas[..|deltas| - 1]) + if last.table in w.identified then [] else [last]
  }

  lemma {:induction false} DomainDeltasConcat(w: World, a: seq<Delta>, b: seq<Delta>)
    ensures DomainDeltas(w, a + b) == DomainDeltas(w, a) + DomainDeltas(w, b)
  {
    if b == [] {
      assert a + b == a;
    } else {
      assert (a + b)[..|a + b| - 1] == a + b[..|b| - 1];
      DomainDeltasConcat(w, a, b[..|b| - 1]);
    }
  }

  lemma {:induction false} DomainDeltasAll(w: World, deltas: seq<Delta>)
    ensures (forall d :: d in deltas ==> d.table !in w.identified) ==> DomainDeltas(w, deltas) == deltas
    ensures (forall d :: d in deltas ==> d.table in w.identified) ==> DomainDeltas(w, deltas) == []
  {
    if deltas != [] {
      assert deltas[|deltas| - 1] in deltas;
      DomainDeltasAll(w, deltas[..|deltas| - 1]);
      assert deltas == deltas[..|deltas| - 1] + [deltas[|deltas| - 1]];
    }
  }

  /** What a materialize of the session would announce of domain tables. */
  function Announced(w: World, s: Session): seq<Delta> { DomainDeltas(w, Announce(s.preImages, s.entries)) }

  /** Materializing announces, call by call, what the direct call delivers; for
      identified tables, whose direct writes deliver nothing, it announces more. */
  lemma StagedAnnounces(h: Hash, w: World, st: Storage, catalog: seq<FamilyIdentity>, s: Session, call: Call)
    requires CatalogOk(w, st, catalog) && SessionOk(h, w, st, catalog, s) && Disciplined(w, call)
    ensures var s', direct := StagedCall(h, st, catalog, s, call).session, Direct(h, Shadow(st, s), catalog, call);
            Announced(w, s') == Announced(w, s) + direct.deltas
  {
    CurrentIsPlaced(w, st.registrations, AllOps(s.entries));
    StagedPlanIsShadow(w, st, s, catalog, call);
    AnnouncesAlike(h, w, st, catalog, s, Shadow(st, s), call);
  }

  lemma AnnouncesAlike(h: Hash, w: World, st: Storage, catalog: seq<FamilyIdentity>, s: Session, sh: Storage,
                       call: Call)
    requires Disciplined(w, call) && PreImagesOk(s) && s.latestSnapshot == Snapshot(sh)
    requires StagedPlan(st.tables, st.identified, s, catalog, call) == Plan(sh.tables, sh.identified, catalog, call)
    ensures var s', direct := StagedCall(h, st, catalog, s, call).session, Direct(h, sh, catalog, call);
            Announced(w, s') == Announced(w, s) + direct.deltas
  {
    AlikeCalls(h, st, catalog, s, sh, call);
    var plan := Plan(sh.tables, sh.identified, catalog, call);
    if plan.Ok? {
      PlanWell(sh.tables, sh.identified, catalog, call);
      PlanTables(sh.tables, sh.identified, catalog, call);
      BufferAnnounces(h, w, st, s, call, plan.value);
      CallAnnounces(h, w, st, catalog, s, sh, call, plan.value);
    }
  }

  lemma CallAnnounces(h: Hash, w: World, st: Storage, catalog: seq<FamilyIdentity>, s: Session, sh: Storage,
                      call: Call, ps: seq<Prepared>)
    requires Disciplined(w, call) && PreImagesOk(s) && WellPrepared(ps) && s.latestSnapshot == Snapshot(sh)
    requires forall p :: p in ps ==> p.op.family.table == CallTable(call)
    ensures var s', direct := BufferCall(h, st, s, call, ps).session, CommitPlan(h, sh, catalog, call, ps);
            Announced(w, s') == Announced(w, s) + direct.deltas
  {
    BufferAnnounces(h, w, st, s, call, ps);
  }

  lemma BufferAnnounces(h: Hash, w: World, st: Storage, s: Session, call: Call, ps: seq<Prepared>)
    requires Disciplined(w, call) && PreImagesOk(s) && WellPrepared(ps)
    requires forall p :: p in ps ==> p.op.family.table == CallTable(call)
    ensures var s' := BufferPlan(h, MintedFor(st, s, call), ps);
            Announced(w, s') == Announced(w, s) + Delivered(call, ps, s.latestSnapshot + 1)
  {
    var m := MintedFor(st, s, call);
    assert m.preImages == s.preImages && m.entries == s.entries && m.latestSnapshot == s.latestSnapshot;
    AnnounceOneMore(h, m, ps);
    AnnouncedAfter(w, call, ps, Announce(s.preImages, s.entries), s.latestSnapshot + 1);
  }

  lemma AnnouncedAfter(w: World, call: Call, ps: seq<Prepared>, before: seq<Delta>, snapshot: nat)
    requires Disciplined(w, call) && WellPrepared(ps) && forall p :: p in ps ==> p.op.family.table == CallTable(call)
    ensures DomainDeltas(w, before + DeltasOf(ps, snapshot)) == DomainDeltas(w, before) + Delivered(call, ps, snapshot)
  {
    var deltas := DeltasOf(ps, snapshot);
    DomainDeltasConcat(w, before, deltas);
    DisciplinedTable(w, call);
    forall d | d in deltas ensures d.table == CallTable(call) {
      var i :| 0 <= i < |deltas| && deltas[i] == d;
      assert ps[i] in ps;
    }
    DomainDeltasAll(w, deltas);
  }

  lemma DisciplinedTable(w: World, call: Call)
    requires Disciplined(w, call)
    ensures IsDomainCall(call) <==> CallTable(call) !in w.identified
  {
  }

  lemma PlanTables(tables: Tables, identified: map<Name, nat>, catalog: seq<FamilyIdentity>, call: Call)
    requires Plan(tables, identified, catalog, call).Ok?
    ensures forall p :: p in Plan(tables, identified, catalog, call).value ==> p.op.family.table == CallTable(call)
  {
    FindTableNamesIt(catalog, CallTable(call));
    if call.Keyed? { PrepareKeyed(tables, catalog, [call.write]); }
    if call.Batch? { PrepareKeyed(tables, catalog, InTable(call.batchTable, call.operations)); }
  }

  // ---- Whole runs ----

  datatype DirectRun = DirectRun(results: seq<Result<Receipt>>, storage: Storage, deltas: seq<Delta>)

  /** The calls performed one after the other on the store itself. */
  function Performed(h: Hash, st: Storage, catalog: seq<FamilyIdentity>, calls: seq<Call>): DirectRun {
    if calls == [] then DirectRun([], st, [])
    else
      var before := Performed(h, st, catalog, calls[..|calls| - 1]);
      var done := Perform(h, before.storage, catalog, calls[|calls| - 1]);
      DirectRun(before.results + [done.result], done.storage, before.deltas + done.deltas)
  }

  datatype StagedRun = StagedRun(results: seq<Result<Receipt>>, session: Session)

  /** The same calls against an engaged session. */
  function Built(h: Hash, st: Storage, catalog: seq<FamilyIdentity>, s: Session, calls: seq<Call>): StagedRun {
    if calls == [] then StagedRun([], s)
    else
      var before := Built(h, st, catalog, s, calls[..|calls| - 1]);
      var staged := StagedCall(h, st, catalog, before.session, calls[|calls| - 1]);
      StagedRun(before.results + [staged.result], staged.session)
  }

  ghost predicate AllDisciplined(w: World, calls: seq<Call>) {
    forall i :: 0 <= i < |calls| ==> Disciplined(w, calls[i])
  }

  /** One direct call compacts history: it commits a domain write that takes the
      retained log past the policy's budget. Identified calls run no maintenance. */
  predicate Triggers(h: Hash, st: Storage, catalog: seq<FamilyIdentity>, call: Call)
    requires st.policy.Some?
  {
    && IsDomainCall(call) && Direct(h, st, catalog, call).result.Ok?
    && |st.versioned| + 1 > st.policy.value.maximumLive
  }

  /** None of the calls, made directly one after the other, compacts history. */
  predicate Untriggered(h: Hash, st: Storage, catalog: seq<FamilyIdentity>, calls: seq<Call>) {
    calls == [] ||
    var before := Performed(h, st, catalog, calls[..|calls| - 1]).storage;
    && Untriggered(h, st, catalog, calls[..|calls| - 1])
    && before.policy.Some? && !Triggers(h, before, catalog, calls[|calls| - 1])
  }

  lemma DirectGrows(h: Hash, st: Storage, catalog: seq<FamilyIdentity>, call: Call)
    requires st.policy.Some?
    ensures var st' := Direct(h, st, catalog, call).storage;
            && st'.policy == st.policy && |st'.versioned| <= |st.versioned| + 1 && st'.registrations == st.registrations
  {
  }

  lemma PerformIsDirect(h: Hash, w: World, st: Storage, catalog: seq<FamilyIdentity>, call: Call)
    requires Inv(h, w, Direct(h, st, catalog, call).storage, catalog)
    requires st.policy.Some? && !Triggers(h, st, catalog, call)
    ensures Perform(h, st, catalog, call) == Direct(h, st, catalog, call)
  {
    DirectGrows(h, st, catalog, call);
  }

  /** Call by call, an engaged session answers as the store would, buffers the
      entries the store would append, and announces the deltas it would deliver. */
  lemma {:induction false} BuildIsPerform(h: Hash, w: World, st: Storage, catalog: seq<FamilyIdentity>,
                                          calls: seq<Call>)
    requires Inv(h, w, st, catalog) && AllDisciplined(w, calls)
    requires st.policy.Some? && Untriggered(h, st, catalog, calls)
    ensures var built, direct := Built(h, st, catalog, Engage(h, st, catalog), calls), Performed(h, st, catalog, calls);
            && built.results == direct.results
            && Shadow(st, built.session) == direct.storage
            && Announced(w, built.session) == direct.deltas
            && SessionOk(h, w, st, catalog, built.session)
            && Inv(h, w, direct.storage, catalog)
            && direct.storage.policy == st.policy
  {
    if calls == [] {
      EngagedOk(h, w, st, catalog);
    } else {
      var init, call := calls[..|calls| - 1], calls[|calls| - 1];
      BuildIsPerform(h, w, st, catalog, init);
      BuildOneMore(h, w, st, catalog, Built(h, st, catalog, Engage(h, st, catalog), init).session,
                   Performed(h, st, catalog, init).storage, call);
    }
  }

  lemma BuildOneMore(h: Hash, w: World, st: Storage, catalog: seq<FamilyIdentity>, s: Session, sh: Storage, call: Call)
    requires CatalogOk(w, st, catalog) && SessionOk(h, w, st, catalog, s) && sh == Shadow(st, s) && Disciplined(w, call)
    requires Inv(h, w, sh, catalog) && sh.policy == st.policy && !Triggers(h, sh, catalog, call)
    ensures var staged, done := StagedCall(h, st, catalog, s, call), Perform(h, sh, catalog, call);
            && staged.result == done.result
            && Shadow(st, staged.session) == done.storage
            && Announced(w, staged.session) == Announced(w, s) + done.deltas
            && SessionOk(h, w, st, catalog, staged.session)
            && Inv(h, w, done.storage, catalog)
            && done.storage.policy == st.policy
  {
    StagedIsDirect(h, w, st, catalog, s, call);
    StagedAnnounces(h, w, st, catalog, s, call);
    DirectPreserves(h, w, sh, catalog, call);
    DirectGrows(h, sh, catalog, call);
    PerformIsDirect(h, w, sh, catalog, call);
  }

  /** Identified calls never compact, whatever the budget. */
  lemma {:induction false} IdentifiedUntriggered(h: Hash, st: Storage, catalog: seq<FamilyIdentity>, calls: seq<Call>)
    requires st.policy.Some? && forall i :: 0 <= i < |calls| ==> !IsDomainCall(calls[i])
    ensures Untriggered(h, st, catalog, calls) && Performed(h, st, catalog, calls).storage.policy == st.policy
  {
    if calls != [] {
      IdentifiedUntriggered(h, st, catalog, calls[..|calls| - 1]);
      DirectGrows(h, Performed(h, st, catalog, calls[..|calls| - 1]).storage, catalog, calls[|calls| - 1]);
    }
  }

  // ---- Park and materialize ----

  /** A group whose entries continue this store, sealed and current. */
  ghost predicate GroupOk(h: Hash, w: World, st: Storage, g: StagedGroup) {
    && g.entries != []
    && VerifyGroup(h, g.entries, st.head, Sequence(st), Snapshot(st)) == Ok(())
    && g.entries[0].previous == st.head
    && AllCurrent(w, st.registrations, AllOps(g.entries))
    && Mints(st.identified, AllOps(g.entries))
  }

  lemma {:induction false} MaterializeOpsMeaning(w: World, tables: Tables, ops: seq<LogOperation>)
    requires AllPlaced(w, ops)
    ensures MaterializeOps(w.identified, tables, ops) == Ok(OperationsOnTables(tables, ops))
  {
    if ops != [] {
      assert ops[|ops| - 1] in ops;
      MaterializeOpsMeaning(w, tables, ops[..|ops| - 1]);
    }
  }

  /** Materializing a group in place is appending its entries and clearing the slot. */
  lemma MaterializeIsAppend(h: Hash, w: World, st: Storage, g: StagedGroup)
    requires st.slot == Some(g) && GroupOk(h, w, st, g)
    ensures var m := Materialize(h, st, w.identified, false);
            && m.result.Ok?
            && m.storage ==
                 AppendEntries(st, g.entries).(slot := None,
                                               intent := IntentAfter(st.intent, g.entries[|g.entries| - 1].sequence))
            && m.deltas == Announce(g.preImages, g.entries)
  {
    CurrentIsPlaced(w, st.registrations, AllOps(g.entries));
    MaterializeOpsMeaning(w, st.tables, AllOps(g.entries));
    AppendMeaning(st, g.entries);
  }

  /** What parking the session would put in the slot is in place on this store. */
  lemma SessionGroupOk(h: Hash, w: World, st: Storage, catalog: seq<FamilyIdentity>, s: Session)
    requires SessionOk(h, w, st, catalog, s) && s.entries != []
    ensures GroupOk(h, w, st, Group(s))
  {
    VerifiedStarts(h, s.entries, st.head, Sequence(st), Snapshot(st));
  }

  lemma {:induction false} VerifiedStarts(h: Hash, entries: seq<Entry>, head: Option<Digest>, sequence: nat,
                                          snapshot: nat)
    requires VerifyGroup(h, entries, head, sequence, snapshot).Ok? && entries != []
    ensures entries[0].previous == head && entries[0].sequence == sequence + 1
    ensures entries[|entries| - 1].sequence == sequence + |entries|
            && entries[|entries| - 1].snapshot == snapshot + |entries|
  {
    if |entries| > 1 { VerifiedStarts(h, entries[..|entries| - 1], head, sequence, snapshot); }
  }

  /** Stage, park, materialize: what the calls return, the store they leave and the
      domain deltas they deliver are those of the same calls made directly. */
  lemma StageParkMaterialize(h: Hash, w: World, st: Storage, catalog: seq<FamilyIdentity>, calls: seq<Call>)
    requires Inv(h, w, st, catalog) && AllDisciplined(w, calls)
    requires st.policy.Some? && Untriggered(h, st, catalog, calls)
    requires st.slot.None? && st.intent.None?
    ensures var built, direct := Built(h, st, catalog, Engage(h, st, catalog), calls), Performed(h, st, catalog, calls);
            var parked := Park(st, Some(built.session));
            && built.results == direct.results
            && parked.result.Ok?
            && (parked.result.value.None? ==> direct.storage == st == parked.storage && direct.deltas == [])
            && (parked.result.value.Some? ==>
                  var m := Materialize(h, parked.storage, w.identified, false);
                  && m.result.Ok? && m.storage == direct.storage && DomainDeltas(w, m.deltas) == direct.deltas
                  && Some(m.result.value.head) == direct.storage.head == Some(parked.result.value.value.head))
  {
    var s := Built(h, st, catalog, Engage(h, st, catalog), calls).session;
    BuildIsPerform(h, w, st, catalog, calls);
    if s.entries != [] {
      SessionGroupOk(h, w, st, catalog, s);
      ParkedMaterializes(h, w, st, catalog, s);
    }
  }

  lemma ParkedMaterializes(h: Hash, w: World, st: Storage, catalog: seq<FamilyIdentity>, s: Session)
    requires SessionOk(h, w, st, catalog, s) && s.entries != [] && GroupOk(h, w, st, Group(s))
    requires st.slot.None? && st.intent.None?
    ensures var parked := Park(st, Some(s));
            && parked.result == Ok(Some(StageReceiptOf(Group(s))))
            && var m := Materialize(h, parked.storage, w.identified, false);
               && m.result.Ok? && m.storage == Shadow(st, s) && m.deltas == Announce(s.preImages, s.entries)
               && Some(m.result.value.head) == Shadow(st, s).head == Some(parked.result.value.value.head)
  {
    var parked := st.(slot := Some(Group(s)));
    MaterializeIsAppend(h, w, parked, Group(s));
    AppendMeaning(st, s.entries);
    ParksOk(h, w, st, catalog, s);
    SlotCleared(st, s.entries, Group(s));
  }

  lemma ParksOk(h: Hash, w: World, st: Storage, catalog: seq<FamilyIdentity>, s: Session)
    requires BaseOk(h, st, catalog, s) && StartsOk(st, s) && s.entries != [] && st.slot.None?
    ensures Park(st, Some(s)) == Outcome(Ok(Some(StageReceiptOf(Group(s)))), st.(slot := Some(Group(s))))
  {
  }

  lemma SlotCleared(st: Storage, entries: seq<Entry>, g: StagedGroup)
    requires st.slot.None?
    ensures AppendEntries(st.(slot := Some(g)), entries).(slot := None) == AppendEntries(st, entries)
  {
    AppendIgnoresSlot(st, entries, Some(g));
    AppendMeaning(st, entries);
  }

  /** The slot plays no part in an append. */
  lemma {:induction false} AppendIgnoresSlot(st: Storage, entries: seq<Entry>, slot: Option<StagedGroup>)
    ensures AppendEntries(st.(slot := slot), entries) == AppendEntries(st, entries).(slot := slot)
  {
    if entries != [] { AppendIgnoresSlot(st, entries[..|entries| - 1], slot); }
  }
}
