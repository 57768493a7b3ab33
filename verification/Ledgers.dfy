// What a versioned store remembers of its whole history: the retained logs, head,
// rows, counters and checkpoints against every entry ever appended.
module Ledgers {
  import opened ByteStrings
  import opened Errors
  import opened Versioning
  import opened CanonicalViews
  import opened Checkpoints
  import opened Catalogs
  import opened Stores
  import opened Invariants
  import opened Histories
  import opened Retention
  import opened Writes
  import opened Staging
  import opened StagingLaws
  import opened Recovery
  import opened Imports

  // ---- The whole history ----

  /** Every entry ever appended: numbered from one, one chain from no predecessor,
      ending at the head slot. */
  ghost predicate Chronicle(h: Hash, w: World, st: Storage, history: seq<Entry>) {
    && |history| == Sequence(st) && Snapshot(st) == Sequence(st)
    && (forall i :: 0 <= i < |history| ==> history[i].sequence == i + 1 && history[i].snapshot == i + 1)
    && (forall i :: 0 <= i < |history| ==> AllPlaced(w, history[i].operations))
    && Chained(h, history, None) && st.head == HeadAfter(history, None)
  }

  ghost predicate Tail<T>(rows: seq<T>, history: seq<T>) {
    |rows| <= |history| && forall i :: 0 <= i < |rows| ==> rows[i] == history[|history| - |rows| + i]
  }

  lemma TailAppend<T>(rows: seq<T>, history: seq<T>, row: T)
    requires Tail(rows, history)
    ensures Tail(rows + [row], history + [row])
  {
  }

  /** Both retained logs are suffixes of the history. */
  ghost predicate Retains(st: Storage, history: seq<Entry>) {
    Tail(st.versioned, history) && Tail(st.commits, Projections(history))
  }

  /** The view over the latest checkpoint holds the whole history's rows. */
  ghost predicate Remembers(h: Hash, st: Storage, history: seq<Entry>) {
    CurrentView(h, st).Ok? && CurrentView(h, st).value.rows == EntriesOnRows(map[], history)
  }

  /** Counters that allocate alike. */
  ghost predicate CountAlike(a: map<Name, nat>, b: map<Name, nat>) {
    forall t {:trigger t in a} :: NextIdentifier(a, t) == NextIdentifier(b, t)
  }

  /** Every identifier in the history was minted from its counter, and the durable
      counters stand where the whole history leaves them. */
  ghost predicate Counted(st: Storage, history: seq<Entry>) {
    && Mints(map[], AllOps(history))
    && CountAlike(st.identified, AdvanceIdentified(map[], AllOps(history)))
    && st.identified.Keys <= st.registrations.Keys
  }

  /** Every stored checkpoint is under its own number, none is later than the latest,
      and each names the one before it while that one is stored. */
  ghost predicate Numbered(checkpoints: map<nat, Metadata>, latest: Option<nat>) {
    && (forall n :: n in checkpoints ==> checkpoints[n].sequence == n && latest.Some? && n <= latest.value)
    && (forall m, n :: m in checkpoints && n in checkpoints && n == m + 1 ==>
          checkpoints[n].previous == Some(checkpoints[m].digest))
  }

  ghost predicate CheckpointsStamped(h: Hash, st: Storage) {
    && (forall n :: n in st.checkpoints ==> Stamps(h, st.policy, st.checkpoints[n]))
    && Numbered(st.checkpoints, st.latestCheckpoint)
  }

  /** A mirrored store retains every entry past the shipped cursor. */
  ghost predicate QueueWhole(st: Storage) {
    Mirrored(st) ==> Sequence(st) <= |st.versioned| + CursorSequence(st)
  }

  ghost predicate Ledger(h: Hash, w: World, st: Storage, history: seq<Entry>) {
    && st.policy.Some? && Complete(st)
    && Chronicle(h, w, st, history) && Retains(st, history)
    && Counted(st, history) && CheckpointsStamped(h, st) && MirrorOk(st) && QueueWhole(st)
  }

  lemma EmptyLedger(h: Hash, w: World, policy: Policy)
    ensures Ledger(h, w, EmptyStore(Some(policy)), []) && Remembers(h, EmptyStore(Some(policy)), [])
  {
    var st := EmptyStore(Some(policy));
    assert AdvanceIdentified(map[], AllOps([])) == map[] by { assert AllOps([]) == []; }
    assert Counted(st, []);
    assert Retains(st, []) by { assert Projections([]) == []; }
    assert CurrentView(h, st) == Ok(EMPTY_VIEW);
  }

  // ---- Appending an entry ----

  lemma {:induction false} AdvanceAlike(a: map<Name, nat>, b: map<Name, nat>, ops: seq<LogOperation>)
    requires CountAlike(a, b)
    ensures CountAlike(AdvanceIdentified(a, ops), AdvanceIdentified(b, ops))
  {
    if ops != [] {
      AdvanceAlike(a, b, ops[..|ops| - 1]);
      var x, y := AdvanceIdentified(a, ops[..|ops| - 1]), AdvanceIdentified(b, ops[..|ops| - 1]);
      forall t ensures NextIdentifier(AdvanceIdentified(a, ops), t) == NextIdentifier(AdvanceIdentified(b, ops), t) {
        assert t in x || t !in x;
      }
    }
  }

  lemma {:induction false} MintsAlike(a: map<Name, nat>, b: map<Name, nat>, ops: seq<LogOperation>)
    requires CountAlike(a, b) && Mints(a, ops)
    ensures Mints(b, ops)
  {
    if ops != [] {
      var init, op := ops[..|ops| - 1], ops[|ops| - 1];
      MintsAlike(a, b, init);
      AdvanceAlike(a, b, init);
      assert op.family.table in AdvanceIdentified(a, init) || op.family.table !in AdvanceIdentified(a, init);
    }
  }

  lemma {:induction false} AdvanceRegistered(identified: map<Name, nat>, ops: seq<LogOperation>, tables: set<Name>)
    requires identified.Keys <= tables && forall op :: op in ops ==> op.family.table in tables
    ensures AdvanceIdentified(identified, ops).Keys <= tables
  {
    if ops != [] {
      assert ops[|ops| - 1] in ops;
      AdvanceRegistered(identified, ops[..|ops| - 1], tables);
    }
  }

  /** An entry every invariant accepts as the next one. */
  ghost predicate NextOk(h: Hash, w: World, st: Storage, e: Entry) {
    Continues(h, st, e) && e.snapshot == Snapshot(st) + 1 && AllPlaced(w, e.operations)
        && Mints(st.identified, e.operations)
  }

  lemma AppendChronicle(h: Hash, w: World, st: Storage, history: seq<Entry>, e: Entry)
    requires Chronicle(h, w, st, history) && NextOk(h, w, st, e)
    ensures Chronicle(h, w, AppendEntry(st, e), history + [e])
  {
    assert (history + [e])[..|history|] == history;
  }

  lemma AppendRetains(st: Storage, history: seq<Entry>, e: Entry)
    requires Retains(st, history)
    ensures Retains(AppendEntry(st, e), history + [e])
  {
    TailAppend(st.versioned, history, e);
    TailAppend(st.commits, Projections(history), Project(e));
    assert Projections(history + [e]) == Projections(history) + [Project(e)];
  }

  lemma AppendRemembers(h: Hash, w: World, st: Storage, catalog: seq<FamilyIdentity>, history: seq<Entry>, e: Entry)
    requires Inv(h, w, st, catalog) && Remembers(h, st, history) && NextOk(h, w, st, e)
    ensures Remembers(h, AppendEntry(st, e), history + [e])
  {
    AppendMovesView(h, w, st, LatestCheckpoint(h, st).value, e);
    AppendKeepsCheckpoint(h, st, e);
    assert (history + [e])[..|history|] == history;
  }

  lemma AppendCounted(st: Storage, history: seq<Entry>, e: Entry, registrations: map<Name, FamilyIdentity>)
    requires Counted(st, history) && Mints(st.identified, e.operations) && st.registrations.Keys <= registrations.Keys
    requires forall op :: op in e.operations ==> op.family.table in registrations
    ensures Counted(AppendEntry(st, e).(registrations := registrations), history + [e])
  {
    var before := AdvanceIdentified(map[], AllOps(history));
    AllOpsOne(history, e);
    MintsAlike(st.identified, before, e.operations);
    MintsConcat(map[], AllOps(history), e.operations);
    AdvanceAlike(st.identified, before, e.operations);
    AdvanceConcat(map[], AllOps(history), e.operations);
    AdvanceRegistered(st.identified, e.operations, registrations.Keys);
  }

  lemma AppendLedger(h: Hash, w: World, st: Storage, history: seq<Entry>, e: Entry)
    requires Ledger(h, w, st, history) && NextOk(h, w, st, e)
    requires forall op :: op in e.operations ==> op.family.table in st.registrations
    ensures Ledger(h, w, AppendEntry(st, e), history + [e])
  {
    AppendChronicle(h, w, st, history, e);
    AppendRetains(st, history, e);
    AppendCounted(st, history, e, st.registrations);
    assert AppendEntry(st, e).(registrations := st.registrations) == AppendEntry(st, e);
    AppendMirror(st, e);
  }

  // ---- Moving history into a checkpoint ----

  /** Rows of both logs and the outbox may go, nothing else is touched but the
      checkpoint plane. */
  ghost predicate Sheds(a: Storage, b: Storage) {
    && OnlyHistory(a, b)
    && (forall e :: e in b.versioned ==> e in a.versioned)
    && (forall c :: c in b.commits ==> c in a.commits)
  }

  lemma {:induction false} FromKeeps<T>(rows: seq<T>, at: T -> nat, start: nat)
    ensures forall r :: r in From(rows, at, start) ==> r in rows && at(r) >= start
  {
    if rows != [] { FromKeeps(rows[..|rows| - 1], at, start); }
  }

  lemma TrimSheds(h: Hash, st: Storage, k: Checkpoint)
    ensures Sheds(st, Trim(h, st, k))
  {
    FromKeeps(st.commits, CommitRowSequence, k.metadata.last + 1);
    FromKeeps(st.versioned, EntryRowSequence, k.metadata.last + 1);
  }

  /** Rows drawn from a numbered history and numbered up to its end are its tail. */
  lemma TailOf<T>(rows: seq<T>, history: seq<T>, at: T -> nat)
    requires |rows| <= |history|
    requires forall i :: 0 <= i < |history| ==> at(history[i]) == i + 1
    requires forall i :: 0 <= i < |rows| ==> at(rows[i]) == |history| - |rows| + 1 + i
    requires forall r :: r in rows ==> r in history
    ensures Tail(rows, history)
  {
    forall i | 0 <= i < |rows| ensures rows[i] == history[|history| - |rows| + i] {
      assert rows[i] in history;
      var j :| 0 <= j < |history| && history[j] == rows[i];
    }
  }

  /** Two aligned logs of one store: what survives is a suffix. */
  lemma ShedRetains(h: Hash, w: World, a: Storage, b: Storage, history: seq<Entry>)
    requires Retains(a, history) && Chronicle(h, w, a, history) && Sheds(a, b) && Sequenced(b)
    ensures Retains(b, history)
  {
    forall e | e in b.versioned ensures e in history { assert e in a.versioned; }
    forall c | c in b.commits ensures c in Projections(history) { assert c in a.commits; }
    TailOf(b.versioned, history, EntryRowSequence);
    TailOf(b.commits, Projections(history), CommitRowSequence);
  }

  lemma ShedLedger(h: Hash, w: World, a: Storage, b: Storage, history: seq<Entry>)
    requires Ledger(h, w, a, history) && Sheds(a, b) && Sequenced(b)
    requires Complete(b) && CheckpointsStamped(h, b) && MirrorOk(b) && QueueWhole(b)
    ensures Ledger(h, w, b, history)
  {
    ShedRetains(h, w, a, b, history);
  }

  lemma CheckpointLedger(h: Hash, w: World, a: Storage, b: Storage, history: seq<Entry>)
    requires Ledger(h, w, a, history) && OnlyCheckpoints(a, b) && Sequenced(a) && CheckpointsStamped(h, b)
    ensures Ledger(h, w, b, history)
  {
    CheckpointsShed(a, b);
    ShedLedger(h, w, a, b, history);
  }

  lemma CheckpointsShed(a: Storage, b: Storage)
    requires OnlyCheckpoints(a, b) && Sequenced(a) && Complete(a) && MirrorOk(a)
    ensures Sheds(a, b) && Sequenced(b) && Complete(b) && MirrorOk(b)
  {
  }

  lemma RetainedStamp(h: Hash, w: World, st: Storage, history: seq<Entry>, start: nat)
    requires Chronicle(h, w, st, history) && Retains(st, history)
    ensures forall e :: e in EntriesFrom(st.versioned, start) ==> e.snapshot == e.sequence
  {
    FromKeeps(st.versioned, EntryRowSequence, start);
    forall e | e in st.versioned ensures e.snapshot == e.sequence {
      var i :| 0 <= i < |st.versioned| && st.versioned[i] == e;
      assert e == history[|history| - |st.versioned| + i];
    }
  }

  /** A checkpoint cut from this store carries its stamps. */
  lemma CutStamps(h: Hash, w: World, st: Storage, catalog: seq<FamilyIdentity>, history: seq<Entry>,
                  c: Option<Checkpoint>)
    requires Chronicle(h, w, st, history) && Retains(st, history) && DistinctTables(catalog)
    requires Sequenced(st) && Complete(st) && CoversOk(st, c) && (c.Some? ==> Stamps(h, st.policy, c.value.metadata))
    requires st.policy.Some? && CutOver(h, st, catalog, c).Ok?
    ensures var m := CutOver(h, st, catalog, c).value.metadata;
            && Stamps(h, st.policy, m)
            && (c.Some? ==> m.sequence == c.value.metadata.sequence + 1 && m.previous == Some(c.value.metadata.digest))
  {
    RetainedStamp(h, w, st, history, BaseOf(c).after + 1);
    FromConsecutive(st.versioned, EntryRowSequence, BaseOf(c).after + 1, Sequence(st));
  }

  lemma PutStamped(h: Hash, st: Storage, k: Checkpoint)
    requires CheckpointsStamped(h, st) && Stamps(h, st.policy, k.metadata)
    requires st.latestCheckpoint.Some? ==>
               var n := st.latestCheckpoint.value;
               n in st.checkpoints && k.metadata.sequence == n + 1
               && k.metadata.previous == Some(st.checkpoints[n].digest)
    ensures CheckpointsStamped(h, PutCheckpoint(h, st, k))
  {
    NumberOne(st.checkpoints, st.latestCheckpoint, k.metadata);
  }

  lemma NumberOne(checkpoints: map<nat, Metadata>, latest: Option<nat>, m: Metadata)
    requires Numbered(checkpoints, latest)
    requires latest.Some? ==> latest.value in checkpoints && m.sequence == latest.value + 1
                              && m.previous == Some(checkpoints[latest.value].digest)
    ensures Numbered(checkpoints[m.sequence := m], Some(m.sequence))
  {
  }

  lemma WriteStamped(h: Hash, w: World, st: Storage, catalog: seq<FamilyIdentity>, history: seq<Entry>)
    requires Ledger(h, w, st, history) && DistinctTables(catalog) && Sequenced(st)
    requires LatestCheckpoint(h, st).Ok? ==> CoversOk(st, LatestCheckpoint(h, st).value)
    ensures WriteCheckpoint(h, st, catalog).Ok? ==> CheckpointsStamped(h, WriteCheckpoint(h, st, catalog).value)
  {
    if WriteCheckpoint(h, st, catalog).Ok? {
      var c := LatestCheckpoint(h, st).value;
      var k := CutCheckpoint(h, st, catalog).value;
      CutIs(h, st, catalog, c);
      LatestRow(h, st, c);
      CutStamps(h, w, st, catalog, history, c);
      PutStamped(h, st, k);
      WriteIs(h, st, catalog, k);
    }
  }

  lemma WriteIs(h: Hash, st: Storage, catalog: seq<FamilyIdentity>, k: Checkpoint)
    requires CutCheckpoint(h, st, catalog) == Ok(k)
    ensures WriteCheckpoint(h, st, catalog) == Ok(PutCheckpoint(h, st, k))
  {
  }

  /** The latest checkpoint is read from its own row. */
  lemma LatestRow(h: Hash, st: Storage, c: Option<Checkpoint>)
    requires LatestCheckpoint(h, st) == Ok(c)
    ensures c.Some? <==> st.latestCheckpoint.Some?
    ensures c.Some? ==> st.latestCheckpoint.value in st.checkpoints
                        && c.value.metadata == st.checkpoints[st.latestCheckpoint.value]
  {
  }

  lemma CoveringLedger(h: Hash, w: World, st: Storage, catalog: seq<FamilyIdentity>, history: seq<Entry>, current: nat)
    requires Sequenced(st) && DistinctTables(catalog) && Ledger(h, w, st, history)
    requires LatestCheckpoint(h, st).Ok? ==> CoversOk(st, LatestCheckpoint(h, st).value)
    ensures Ledger(h, w, EnsureCovering(h, st, catalog, current).storage, history)
  {
    WriteStamped(h, w, st, catalog, history);
    CoveringStamped(h, st, catalog, current);
    CoveringMovesCheckpoints(h, st, catalog, current);
    CheckpointLedger(h, w, st, EnsureCovering(h, st, catalog, current).storage, history);
  }

  lemma CoveringStamped(h: Hash, st: Storage, catalog: seq<FamilyIdentity>, current: nat)
    requires CheckpointsStamped(h, st)
    requires WriteCheckpoint(h, st, catalog).Ok? ==> CheckpointsStamped(h, WriteCheckpoint(h, st, catalog).value)
    ensures CheckpointsStamped(h, EnsureCovering(h, st, catalog, current).storage)
  {
    ReloadStamped(h, st, WriteCheckpoint(h, st, catalog));
  }

  lemma ReloadStamped(h: Hash, st: Storage, written: Result<Storage>)
    requires CheckpointsStamped(h, st) && (written.Ok? ==> CheckpointsStamped(h, written.value))
    ensures CheckpointsStamped(h, Reload(h, st, written).storage)
  {
  }

  lemma TrimStamped(h: Hash, st: Storage, k: Checkpoint)
    requires Stamps(h, st.policy, k.metadata) && st.latestCheckpoint == Some(k.metadata.sequence)
    ensures CheckpointsStamped(h, Trim(h, st, k))
  {
    assert Trim(h, st, k).checkpoints == map[k.metadata.sequence := Rooted(h, k.metadata)];
    RootedStamps(h, st.policy, k.metadata);
  }

  lemma RootedStamps(h: Hash, policy: Option<Policy>, m: Metadata)
    requires Stamps(h, policy, m)
    ensures Stamps(h, policy, Rooted(h, m)) && Rooted(h, m).sequence == m.sequence
  {
  }

  lemma TrimLedger(h: Hash, w: World, st: Storage, history: seq<Entry>, k: Checkpoint)
    requires Sequenced(st) && CoversOk(st, Some(k)) && Ledger(h, w, st, history) && Stamps(h, st.policy, k.metadata)
    requires Mirrored(st) ==> k.metadata.last <= CursorSequence(st)
    ensures Ledger(h, w, Trim(h, st, k), history)
  {
    TrimSheds(h, st, k);
    TrimSequenced(h, st, k);
    TrimStamped(h, st, k);
    if Mirrored(st) { TrimMirror(h, st, k); }
    ShedLedger(h, w, st, Trim(h, st, k), history);
  }

  /** What trimming under a covering checkpoint needs of it. */
  ghost predicate CoveringOk(h: Hash, covering: Outcome<Checkpoint>) {
    covering.result.Ok? ==> CoversOk(covering.storage, Some(covering.result.value))
                            && Stamps(h, covering.storage.policy, covering.result.value.metadata)
  }

  lemma TrimOverLedger(h: Hash, w: World, covering: Outcome<Checkpoint>, history: seq<Entry>, before: nat,
                       ack: Acknowledgement)
    requires Sequenced(covering.storage) && Ledger(h, w, covering.storage, history) && CoveringOk(h, covering)
    requires Mirrored(covering.storage) ==> ack.MirrorAcknowledged?
    ensures Ledger(h, w, TrimOver(h, covering, before, ack).storage, history)
  {
    if covering.result.Ok? && MirrorCovers(covering.storage, ack, covering.result.value.metadata.last).Ok? {
      TrimLedger(h, w, covering.storage, history, covering.result.value);
    }
  }

  lemma CoveringIsOk(h: Hash, w: World, st: Storage, catalog: seq<FamilyIdentity>, current: nat)
    requires Inv(h, w, st, catalog) && CoverClear(h, st, catalog, current)
    requires CheckpointsStamped(h, EnsureCovering(h, st, catalog, current).storage)
    ensures Sequenced(EnsureCovering(h, st, catalog, current).storage)
            && CoveringOk(h, EnsureCovering(h, st, catalog, current))
  {
    CoveringPreserves(h, w, st, catalog, current);
    var covering := EnsureCovering(h, st, catalog, current);
    if covering.result.Ok? { LatestIs(h, covering.storage, covering.result.value); }
  }

  /** Compaction, accepted or refused, keeps the ledger. */
  lemma CompactLedger(h: Hash, w: World, st: Storage, catalog: seq<FamilyIdentity>, history: seq<Entry>, current: nat,
                      maximum: nat, ack: Acknowledgement)
    requires Inv(h, w, st, catalog) && CompactClear(h, st, catalog, current, maximum, ack) && DistinctTables(catalog)
             && Ledger(h, w, st, history)
    ensures Ledger(h, w, CompactHistory(h, st, catalog, current, maximum, ack).storage, history)
  {
    if ValidateAcknowledgement(st, ack).Ok? && |st.versioned| > maximum {
      CoveringLedger(h, w, st, catalog, history, current);
      CoveringIsOk(h, w, st, catalog, current);
      CoveringMovesCheckpoints(h, st, catalog, current);
      CompactLedgerFrom(h, w, st, catalog, history, current, maximum, ack);
    }
  }

  lemma CompactLedgerFrom(h: Hash, w: World, st: Storage, catalog: seq<FamilyIdentity>, history: seq<Entry>,
                          current: nat, maximum: nat, ack: Acknowledgement)
    requires Ledger(h, w, st, history)
    requires var covering := EnsureCovering(h, st, catalog, current);
             && Ledger(h, w, covering.storage, history) && Sequenced(covering.storage) && CoveringOk(h, covering)
             && OnlyCheckpoints(st, covering.storage)
    ensures Ledger(h, w, CompactHistory(h, st, catalog, current, maximum, ack).storage, history)
  {
    if ValidateAcknowledgement(st, ack).Ok? && |st.versioned| > maximum {
      TrimOverLedger(h, w, EnsureCovering(h, st, catalog, current), history, |st.versioned|, ack);
    }
  }

  lemma ConfiguredLedger(h: Hash, w: World, st: Storage, catalog: seq<FamilyIdentity>, history: seq<Entry>,
                         current: nat)
    requires Inv(h, w, st, catalog) && MaintainClear(h, st, catalog, current) && DistinctTables(catalog)
             && Ledger(h, w, st, history)
    ensures Ledger(h, w, CompactConfigured(h, st, catalog, current).storage, history)
  {
    var ack := ConfiguredAcknowledgement(st, current);
    if |st.versioned| > st.policy.value.maximumLive && ack.Ok? {
      CompactLedger(h, w, st, catalog, history, current, st.policy.value.maximumLive, ack.value);
    }
  }

  // ---- What the ledger gives ----

  lemma {:induction false} PlacedApplies(w: World, ops: seq<LogOperation>)
    requires AllPlaced(w, ops)
    ensures AllApplicable(ops)
  {
    if ops != [] {
      assert ops[|ops| - 1] in ops;
      PlacedApplies(w, ops[..|ops| - 1]);
    }
  }

  lemma {:induction false} HistoryApplies(w: World, history: seq<Entry>)
    requires forall i :: 0 <= i < |history| ==> AllPlaced(w, history[i].operations)
    ensures EntriesApplicable(history)
  {
    if history != [] {
      var init := history[..|history| - 1];
      assert forall i :: 0 <= i < |init| ==> init[i] == history[i];
      HistoryApplies(w, init);
      PlacedApplies(w, history[|history| - 1].operations);
    }
  }

  lemma HistoryFolds(h: Hash, w: World, st: Storage, history: seq<Entry>)
    requires Chronicle(h, w, st, history)
    ensures Fold(h, [], history, None).Ok? && Fold(h, [], history, None).value.rows == EntriesOnRows(map[], history)
  {
    HistoryApplies(w, history);
    FoldMeaning(h, EMPTY_VIEW, history, None);
  }

  /** Checkpointing and compacting, wherever they fell in the run, never changed the
      view: folding the whole history from nothing succeeds and gives the rows the
      store folds from its latest checkpoint, which are the rows of its tables. */
  lemma WholeHistoryIsTheView(h: Hash, w: World, st: Storage, catalog: seq<FamilyIdentity>, history: seq<Entry>)
    requires Inv(h, w, st, catalog) && Complete(st) && Chronicle(h, w, st, history) && Remembers(h, st, history)
    ensures var whole, view := Fold(h, [], history, None), CurrentView(h, st);
            && whole.Ok? && view.Ok? && whole.value.rows == view.value.rows
            && ViewDigest(h, whole.value) == ViewDigest(h, view.value)
            && Agrees(w, st.tables, whole.value.rows, st.registrations)
  {
    HistoryFolds(h, w, st, history);
  }

  /** The asserted identifier of an operation, if it mints one. */
  ghost predicate MintsAt(op: LogOperation, table: Name, id: nat) {
    op.operation.Assert? && op.family.table == table && op.key == Some(Identifier(id))
  }

  lemma {:induction false} MintedBelow(identified: map<Name, nat>, ops: seq<LogOperation>, table: Name)
    requires Mints(identified, ops)
    ensures NextIdentifier(AdvanceIdentified(identified, ops), table) >= NextIdentifier(identified, table)
    ensures forall i, id: nat :: 0 <= i < |ops| && MintsAt(ops[i], table, id) ==>
              NextIdentifier(identified, table) <= id < NextIdentifier(AdvanceIdentified(identified, ops), table)
  {
    if ops != [] { MintedBelow(identified, ops[..|ops| - 1], table); }
  }

  /** No identifier is minted twice in a table, and the next one is above them all. */
  lemma {:induction false} MintedOnce(identified: map<Name, nat>, ops: seq<LogOperation>, table: Name)
    requires Mints(identified, ops)
    ensures forall i, j, x: nat, y: nat ::
              0 <= i < j < |ops| && MintsAt(ops[i], table, x) && MintsAt(ops[j], table, y) ==> x < y
  {
    if ops != [] {
      MintedOnce(identified, ops[..|ops| - 1], table);
      MintedBelow(identified, ops[..|ops| - 1], table);
    }
  }

  /** The durable counter of every table stands above every identifier the whole
      history committed in it, and no identifier was committed twice. */
  lemma IdentifiersNeverRepeat(h: Hash, w: World, st: Storage, history: seq<Entry>, table: Name)
    requires Ledger(h, w, st, history)
    ensures var ops := AllOps(history);
            && (forall i, id: nat :: 0 <= i < |ops| && MintsAt(ops[i], table, id) ==>
                id < NextIdentifier(st.identified, table))
            && (forall i, j, x: nat, y: nat ::
                  0 <= i < j < |ops| && MintsAt(ops[i], table, x) && MintsAt(ops[j], table, y) ==> x < y)
  {
    MintedBelow(map[], AllOps(history), table);
    MintedOnce(map[], AllOps(history), table);
    assert table in st.identified || table !in st.identified;
  }

  /** In a mirrored store the unshipped suffix is exactly the whole history past the
      cursor, row for row: no compaction ever removed an unshipped entry. */
  lemma UnshippedIsHistoryPastCursor(h: Hash, w: World, st: Storage, history: seq<Entry>)
    requires Ledger(h, w, st, history) && Sequenced(st) && Mirrored(st)
    ensures CursorSequence(st) <= |history|
    ensures Unshipped(st) == OutboxOf(history[CursorSequence(st)..])
  {
    PastCursor(st, history);
  }

  lemma PastCursor(st: Storage, history: seq<Entry>)
    requires MirrorOk(st) && QueueWhole(st) && Sequenced(st) && Mirrored(st)
    requires Tail(st.versioned, history) && |history| == Sequence(st)
    ensures Unshipped(st) == OutboxOf(history[CursorSequence(st)..])
  {
    var cursor := CursorSequence(st);
    UnshippedIsSuffix(st);
    FromConsecutive(st.versioned, EntryRowSequence, cursor + 1, Sequence(st));
    TailSuffix(st.versioned, history, |history| - cursor);
  }

  lemma TailSuffix<T>(rows: seq<T>, history: seq<T>, n: nat)
    requires Tail(rows, history) && n <= |rows|
    ensures rows[|rows| - n..] == history[|history| - n..]
  {
  }

  lemma {:induction false} RowAtConsecutive<T>(rows: seq<T>, at: T -> nat, last: nat, sequence: nat)
    requires |rows| <= last && forall i :: 0 <= i < |rows| ==> at(rows[i]) == last - |rows| + 1 + i
    ensures RowAt(rows, at, sequence).Some? <==> last - |rows| < sequence <= last
  {
    if rows != [] { RowAtConsecutive(rows[..|rows| - 1], at, last - 1, sequence); }
  }

  /** The durability of one commit of a mirrored store. */
  function CommitDurability(st: Storage, sequence: nat): Result<Durability> {
    if !(Sequence(st) - |st.versioned| < sequence <= Sequence(st)) then Err(UnknownCommitSequence(sequence))
    else if sequence <= CursorSequence(st) then Ok(ServerCommitted)
    else Ok(QueuedForMirror)
  }

  /** Durability in a mirrored store: unknown exactly outside the retained log,
      confirmed exactly up to the shipped cursor, queued past it. */
  lemma DurabilityMeaning(st: Storage, sequence: nat)
    requires Mirrored(st) && MirrorOk(st) && Sequenced(st) && Complete(st)
    ensures DurabilityOf(st, sequence) == CommitDurability(st, sequence)
  {
    RowAtConsecutive(st.commits, CommitRowSequence, Sequence(st), sequence);
    RowAtConsecutive(st.versioned, EntryRowSequence, Sequence(st), sequence);
    RowAtOutbox(st.versioned, sequence);
  }

  lemma {:induction false} OutboxCount(entries: seq<Entry>)
    ensures |OutboxOf(entries)| == |entries|
  {
    if entries != [] { OutboxCount(entries[..|entries| - 1]); }
  }

  /** What the store reports as a whole against what it reports commit by commit. A
      mirrored store is confirmed exactly when its cursor is at its last entry, and
      then every retained commit is; otherwise the last one is queued. A local store
      reports itself confirmed although no commit of it is. */
  lemma StoreDurabilityMeaning(st: Storage)
    requires st.policy.Some? && MirrorOk(st) && Sequenced(st) && Complete(st) && QueueWhole(st)
    ensures Mirrored(st) ==>
              && (StoreDurability(st) == ServerCommitted <==> CursorSequence(st) == Sequence(st))
              && (StoreDurability(st) == QueuedForMirror <==> CursorSequence(st) < Sequence(st))
              && (StoreDurability(st) == ServerCommitted ==>
                    forall n: nat :: Sequence(st) - |st.versioned| < n <= Sequence(st) ==>
                      DurabilityOf(st, n) == Ok(ServerCommitted))
              && (StoreDurability(st) == QueuedForMirror ==> DurabilityOf(st, Sequence(st)) == Ok(QueuedForMirror))
    ensures !Mirrored(st) ==>
              && StoreDurability(st) == ServerCommitted
              && forall n: nat :: Sequence(st) - |st.versioned| < n <= Sequence(st) ==>
                   DurabilityOf(st, n) == Ok(LocalCommitted)
  {
    if Mirrored(st) {
      UnshippedIsSuffix(st);
      FromConsecutive(st.versioned, EntryRowSequence, CursorSequence(st) + 1, Sequence(st));
      OutboxCount(EntriesFrom(st.versioned, CursorSequence(st) + 1));
      forall n: nat ensures DurabilityOf(st, n) == CommitDurability(st, n) { DurabilityMeaning(st, n); }
    } else {
      forall n: nat | Sequence(st) - |st.versioned| < n <= Sequence(st)
        ensures DurabilityOf(st, n) == Ok(LocalCommitted)
      {
        RowAtConsecutive(st.commits, CommitRowSequence, Sequence(st), n);
      }
    }
  }
}
