// The staging seam: an engaged session buffers the write surface into one
// uncommitted group, which is parked durably and later materialized or discarded.
module Staging {
  import opened ByteStrings
  import opened Errors
  import opened Versioning
  import opened CanonicalViews
  import opened Checkpoints
  import opened Catalogs
  import opened Stores
  import opened Invariants
  import opened Retention
  import opened Writes
  import opened Rebuilding

  // ---- The session ----

  /** What the session was engaged over: chain head, counters, and the identified
      counter starts it minted from. */
  datatype StagingBase = StagingBase(head: Option<Digest>, sequence: nat, snapshot: nat, starts: seq<IdentifiedCounter>)

  /** The in-memory build state. The overlay is keyed by table and key text. */
  datatype Session = Session(
    base: StagingBase,
    storeName: Bytes,
    schemaHash: Digest,
    entries: seq<Entry>,
    latestSequence: nat,
    latestSnapshot: nat,
    previous: Option<Digest>,
    overlay: map<Coord, bool>,
    pending: map<Name, nat>,
    preImages: seq<PreImage>)

  function Engage(h: Hash, st: Storage, catalog: seq<FamilyIdentity>): Session
    requires st.policy.Some?
  {
    Session(StagingBase(st.head, Sequence(st), Snapshot(st), []), st.policy.value.storeName,
            StoreSchemaHash(h, catalog),
            [], Sequence(st), Snapshot(st), st.head, map[], map[], [])
  }

  /** Allocate the next sequence and snapshot and chain one entry. */
  function Buffered(h: Hash, s: Session, ops: seq<LogOperation>): Session {
    var e := Seal(h, s.storeName, s.schemaHash, s.latestSequence + 1, s.latestSnapshot + 1, s.previous, ops);
    s.(entries := s.entries + [e], latestSequence := e.sequence, latestSnapshot := e.snapshot,
       previous := Some(e.digest))
  }

  /** The identifier the session mints next for a table. */
  function NextMint(s: Session, identified: map<Name, nat>, table: Name): nat {
    if table in s.pending then s.pending[table] else NextIdentifier(identified, table)
  }

  function Minted(s: Session, identified: map<Name, nat>, table: Name): Session {
    var id := NextMint(s, identified, table);
    s.(pending := s.pending[table := id + 1],
       base := if table in s.pending then s.base else s.base.(starts := s.base.starts + [IdentifiedCounter(table, id)]))
  }

  // ---- Buffered effects ----

  datatype Effect = Effect(key: RecordKey, payload: Payload)

  function AllOps(entries: seq<Entry>): seq<LogOperation> {
    if entries == [] then [] else AllOps(entries[..|entries| - 1]) + entries[|entries| - 1].operations
  }

  /** The buffered effects on one table, in group order. */
  function Effects(ops: seq<LogOperation>, table: Name): seq<Effect> {
    if ops == [] then []
    else
      var op := ops[|ops| - 1];
      Effects(ops[..|ops| - 1], table) +
      if op.family.table == table && op.key.Some? then [Effect(op.key.value, op.payload)] else []
  }

  function LastEffect(effects: seq<Effect>, key: RecordKey): Option<Payload> {
    if effects == [] then None
    else if effects[|effects| - 1].key == key then Some(effects[|effects| - 1].payload)
    else LastEffect(effects[..|effects| - 1], key)
  }

  // ---- Reads through the session ----

  function At(tables: Tables, c: Coord): Option<Bytes> { if c in tables then Some(tables[c]) else None }

  /** The overlay wins; committed state answers otherwise. */
  function StagedPresent(s: Session, committed: bool, table: Name, key: RecordKey): bool {
    var slot := TextSlot(table, key);
    if slot in s.overlay then s.overlay[slot] else committed
  }

  /** The record a staged retract removes. */
  function StagedPreImage(s: Session, committed: Option<Bytes>, table: Name, key: RecordKey): Option<Bytes> {
    var slot := TextSlot(table, key);
    if slot !in s.overlay then committed
    else if !s.overlay[slot] then None
    else
      match LastEffect(Effects(AllOps(s.entries), table), key)
      case Some(Record(bytes)) => Some(bytes)
      case _ => committed
  }

  function StagedPrepareOne(tables: Tables, s: Session, catalog: seq<FamilyIdentity>, w: Write): Result<Prepared> {
    match FindTable(catalog, w.table)
    case None => Err(TableNotRegistered(w.table))
    case Some(family) =>
      var committed := At(tables, TextSlot(w.table, w.key));
      var present := StagedPresent(s, committed.Some?, w.table, w.key);
      match w.kind
      case Assertion =>
        if present then Err(DuplicateAssertKey(w.table, Text(w.key)))
        else Ok(Prepared(LogOperation(Assert, family, Some(w.key), Record(w.record)), w.record))
      case Mutation =>
        if !present then Err(RecordNotFound(w.table, Text(w.key)))
        else Ok(Prepared(LogOperation(Mutate, family, Some(w.key), Record(w.record)), w.record))
      case Retraction =>
        match StagedPreImage(s, committed, w.table, w.key)
        case None => Err(RecordNotFound(w.table, Text(w.key)))
        case Some(removed) => Ok(Prepared(LogOperation(Retract, family, Some(w.key), Tombstone), removed))
  }

  function StagedPrepare(tables: Tables, s: Session, catalog: seq<FamilyIdentity>,
                         ws: seq<Write>): Result<seq<Prepared>> {
    if ws == [] then Ok([])
    else
      var init, w := ws[..|ws| - 1], ws[|ws| - 1];
      var before := StagedPrepare(tables, s, catalog, init);
      if before.Err? then before
      else if (w.table, w.key) in Coordinates(init) then Err(DuplicateWriteKey(w.table, Text(w.key)))
      else
        var p := StagedPrepareOne(tables, s, catalog, w);
        if p.Err? then Err(p.error) else Ok(before.value + [p.value])
  }

  function StagedIdentified(tables: Tables, s: Session, catalog: seq<FamilyIdentity>, kind: WriteKind, table: Name,
                            id: nat, record: Bytes)
    : Result<seq<Prepared>>
  {
    match FindTable(catalog, table)
    case None => Err(TableNotRegistered(table))
    case Some(family) =>
      var key := Identifier(id);
      var committed := At(tables, Coord(table, key));
      match kind
      case Assertion => Ok([Prepared(LogOperation(Assert, family, Some(key), Record(record)), record)])
      case Mutation =>
        if !StagedPresent(s, committed.Some?, table, key) then Err(RecordNotFound(table, Decimal(id)))
        else Ok([Prepared(LogOperation(Mutate, family, Some(key), Record(record)), record)])
      case Retraction =>
        match StagedPreImage(s, committed, table, key)
        case None => Err(RecordNotFound(table, Decimal(id)))
        case Some(removed) => Ok([Prepared(LogOperation(Retract, family, Some(key), Tombstone), removed)])
  }

  /** Validate a call against committed state seen through the session. */
  function StagedPlan(tables: Tables, identified: map<Name, nat>, s: Session, catalog: seq<FamilyIdentity>, call: Call)
    : Result<seq<Prepared>>
  {
    match call
    case Keyed(w) => StagedPrepare(tables, s, catalog, [w])
    case Batch(table, ops) =>
      if FindTable(catalog, table).None? then Err(TableNotRegistered(table))
      else if ops == [] then Err(EmptyCommit(table))
      else StagedPrepare(tables, s, catalog, InTable(table, ops))
    case AssertIdentified(table, record) =>
      StagedIdentified(tables, s, catalog, Assertion, table, NextMint(s, identified, table), record)
    case MutateIdentified(table, id, record) => StagedIdentified(tables, s, catalog, Mutation, table, id, record)
    case RetractIdentified(table, id) => StagedIdentified(tables, s, catalog, Retraction, table, id, [])
  }

  // ---- Buffering a call ----

  function OverlayOne(overlay: map<Coord, bool>, op: LogOperation): map<Coord, bool> {
    if op.key.None? then overlay else overlay[TextSlot(op.family.table, op.key.value) := op.payload.Record?]
  }

  function OverlayAll(overlay: map<Coord, bool>, ops: seq<LogOperation>): map<Coord, bool> {
    if ops == [] then overlay else OverlayOne(OverlayAll(overlay, ops[..|ops| - 1]), ops[|ops| - 1])
  }

  /** The pre-images of an entry's retracts, in operation order. */
  function PreImagesOf(entry: nat, ps: seq<Prepared>): seq<PreImage> {
    if ps == [] then []
    else
      var n := |ps| - 1;
      PreImagesOf(entry, ps[..n]) +
      if ps[n].op.operation.Retract? then [PreImage(entry, n, ps[n].record)] else []
  }

  function BufferPlan(h: Hash, s: Session, ps: seq<Prepared>): Session {
    Buffered(h, s.(overlay := OverlayAll(s.overlay, OpsOf(ps)),
                   preImages := s.preImages + PreImagesOf(|s.entries|, ps)), OpsOf(ps))
  }

  function MintedFor(st: Storage, s: Session, call: Call): Session {
    if call.AssertIdentified? then Minted(s, st.identified, call.table) else s
  }

  datatype Staged = Staged(result: Result<Receipt>, session: Session)

  /** One call while a session is engaged: same validation, same receipt, nothing
      durable. A refused call leaves the session as it was. */
  function StagedCall(h: Hash, st: Storage, catalog: seq<FamilyIdentity>, s: Session, call: Call): Staged {
    var plan := StagedPlan(st.tables, st.identified, s, catalog, call);
    if plan.Err? then Staged(Err(plan.error), s) else BufferCall(h, st, s, call, plan.value)
  }

  function BufferCall(h: Hash, st: Storage, s: Session, call: Call, ps: seq<Prepared>): Staged {
    var s' := BufferPlan(h, MintedFor(st, s, call), ps);
    Staged(Ok(ReceiptFor(call, OpsOf(ps), s'.latestSequence, s'.latestSnapshot)), s')
  }

  function Group(s: Session): StagedGroup { StagedGroup(s.entries, s.preImages) }

  // ---- Park, abandon, discard ----

  function Begin(h: Hash, st: Storage, catalog: seq<FamilyIdentity>, engaged: Option<Session>): Result<Session> {
    if st.policy.None? then Err(VersioningNotEnabled)
    else if engaged.Some? then Err(StagingSessionEngaged)
    else if st.slot.Some? then Err(StagingSlotOccupied)
    else Ok(Engage(h, st, catalog))
  }

  /** Nothing committed since engagement: same head, same counters, same starts. */
  predicate BaseCurrent(st: Storage, base: StagingBase) {
    && st.head == base.head && Sequence(st) == base.sequence && Snapshot(st) == base.snapshot
    && forall c :: c in base.starts ==> NextIdentifier(st.identified, c.table) == c.next
  }

  datatype StageReceipt = StageReceipt(head: Digest, entries: nat, first: nat, last: nat)

  function StageReceiptOf(g: StagedGroup): StageReceipt
    requires g.entries != []
  {
    var last := g.entries[|g.entries| - 1];
    StageReceipt(last.digest, |g.entries|, g.entries[0].sequence, last.sequence)
  }

  /** Park the session's group in the slot. The session ends either way. */
  function Park(st: Storage, engaged: Option<Session>): Outcome<Option<StageReceipt>> {
    if engaged.None? then Outcome(Err(StagingSessionNotEngaged), st)
    else
      var s := engaged.value;
      if s.entries == [] then Outcome(Ok(None), st)
      else if !BaseCurrent(st, s.base) then Outcome(Err(StagingBaseMoved(Sequence(st))), st)
      else if st.slot.Some? then Outcome(Err(StagingSlotOccupied), st)
      else Outcome(Ok(Some(StageReceiptOf(Group(s)))), st.(slot := Some(Group(s))))
  }

  datatype DiscardReceipt = DiscardReceipt(head: Digest, entries: nat)

  function Discard(st: Storage): Outcome<DiscardReceipt> {
    if st.slot.None? then Outcome(Err(StagingSlotEmpty), st)
    else
      var g := st.slot.value;
      if g.entries == [] then Outcome(Err(StagingSlotEmpty), st)
      else Outcome(Ok(DiscardReceipt(g.entries[|g.entries| - 1].digest, |g.entries|)), st.(slot := None))
  }

  // ---- Materialize ----

  /** The parked entries still continue the store's log, and each digest is that of
      its own fields. */
  function VerifyGroup(h: Hash, entries: seq<Entry>, head: Option<Digest>, sequence: nat, snapshot: nat): Result<()> {
    if entries == [] then Ok(())
    else
      var n := |entries| - 1;
      var before := VerifyGroup(h, entries[..n], head, sequence, snapshot);
      var e := entries[n];
      if before.Err? then before
      else if e.previous != HeadAfter(entries[..n], head) || e.sequence != sequence + n + 1
           || e.snapshot != snapshot + n + 1
      then Err(StagingBaseMoved(sequence))
      else if EntryDigest(h, e) != e.digest then Err(StagedGroupDigestMismatch(e.sequence))
      else Ok(())
  }

  function MaterializeOps(directory: Directory, tables: Tables, ops: seq<LogOperation>): Result<Tables> {
    if ops == [] then Ok(tables)
    else
      var before := MaterializeOps(directory, tables, ops[..|ops| - 1]);
      var op := ops[|ops| - 1];
      if before.Err? then before
      else if op.key.None? then Err(ReplayMissingKey(op.family.family))
      else MaterializeRow(directory, before.value, ViewRow(op.family, op.key.value, op.payload))
  }

  function FindPreImage(preImages: seq<PreImage>, entry: nat, operation: nat): Option<Bytes> {
    if preImages == [] then None
    else if preImages[0].entry == entry && preImages[0].operation == operation then Some(preImages[0].bytes)
    else FindPreImage(preImages[1..], entry, operation)
  }

  /** The delta one materialized operation announces. */
  function AnnounceOne(preImages: seq<PreImage>, entry: nat, index: nat, op: LogOperation, snapshot: nat): seq<Delta> {
    if op.key.None? then []
    else
      match (op.operation, op.payload)
      case (Assert, Record(bytes)) => [Delta(Assert, op.family.table, op.key.value, snapshot, bytes)]
      case (Mutate, Record(bytes)) => [Delta(Mutate, op.family.table, op.key.value, snapshot, bytes)]
      case (Retract, _) =>
        (match FindPreImage(preImages, entry, index)
         case None => []
         case Some(bytes) => [Delta(Retract, op.family.table, op.key.value, snapshot, bytes)])
      case _ => []
  }

  function AnnounceOps(preImages: seq<PreImage>, entry: nat, ops: seq<LogOperation>, snapshot: nat): seq<Delta> {
    if ops == [] then []
    else
      var n := |ops| - 1;
      AnnounceOps(preImages, entry, ops[..n], snapshot) + AnnounceOne(preImages, entry, n, ops[n], snapshot)
  }

  function Announce(preImages: seq<PreImage>, entries: seq<Entry>): seq<Delta> {
    if entries == [] then []
    else
      var n := |entries| - 1;
      Announce(preImages, entries[..n]) + AnnounceOps(preImages, n, entries[n].operations, entries[n].snapshot)
  }

  datatype MaterializeReceipt = MaterializeReceipt(head: Digest, sequence: nat, snapshot: nat, entries: nat)
  datatype Materialized = Materialized(result: Result<MaterializeReceipt>, storage: Storage, deltas: seq<Delta>)

  /** A group still in place on this store: its checks, in the order they are made. */
  function CheckGroup(h: Hash, st: Storage, engaged: bool): Result<StagedGroup> {
    if engaged then Err(StagingSessionEngaged)
    else if st.slot.None? then Err(StagingSlotEmpty)
    else
      var g := st.slot.value;
      var base := if g.entries == [] then None else g.entries[0].previous;
      if base != st.head then Err(StagingBaseMoved(Sequence(st)))
      else
        var verified := VerifyGroup(h, g.entries, st.head, Sequence(st), Snapshot(st));
        if verified.Err? then Err(verified.error)
        else if g.entries == [] then Err(StagingSlotEmpty)
        else Ok(g)
  }

  /** A materialize of a planned compaction moves its intent in the same write. */
  function IntentAfter(intent: Option<Intent>, sequence: nat): Option<Intent> {
    if intent.Some? && intent.value.phase.Planned? then Some(Intent(Applied, Some(sequence))) else intent
  }

  /** Everything the group's direct writes would have moved, and the slot, in one write. */
  function LandGroup(st: Storage, entries: seq<Entry>, tables: Tables): Storage
    requires entries != []
  {
    AppendEntries(st, entries).(tables := tables, slot := None,
                                intent := IntentAfter(st.intent, entries[|entries| - 1].sequence))
  }

  function Materialize(h: Hash, st: Storage, directory: Directory, engaged: bool): Materialized {
    var checked := CheckGroup(h, st, engaged);
    if checked.Err? then Materialized(Err(checked.error), st, []) else MaterializeChecked(st, directory, checked.value)
  }

  function MaterializeChecked(st: Storage, directory: Directory, g: StagedGroup): Materialized
    requires g.entries != []
  {
    var tables := MaterializeOps(directory, st.tables, AllOps(g.entries));
    if tables.Err? then Materialized(Err(tables.error), st, [])
    else
      var last := g.entries[|g.entries| - 1];
      Materialized(Ok(MaterializeReceipt(last.digest, last.sequence, last.snapshot, |g.entries|)),
                   LandGroup(st, g.entries, tables.value),
                   Announce(g.preImages, g.entries))
  }
}
