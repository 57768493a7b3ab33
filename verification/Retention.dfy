// The mirror outbox and the retention policy: when covered history may leave the store.
module Retention {
  import opened ByteStrings
  import opened Errors
  import opened Versioning
  import opened CanonicalViews
  import opened Checkpoints
  import opened Catalogs
  import opened Stores
  import opened Invariants
  import opened Histories

  /** What a call returned, and the durable state it left behind. */
  datatype Outcome<+T> = Outcome(result: Result<T>, storage: Storage)

  // ---- Outbox ----

  function CursorSequence(st: Storage): nat { if st.cursor.Some? then st.cursor.value.sequence else 0 }

  /** Outbox rows past the shipped cursor. */
  function Unshipped(st: Storage): seq<OutboxRow> { From(st.outbox, OutboxRowSequence, CursorSequence(st) + 1) }

  function RowAt<T>(rows: seq<T>, at: T -> nat, sequence: nat): Option<T> {
    if rows == [] then None
    else if at(rows[|rows| - 1]) == sequence then Some(rows[|rows| - 1])
    else RowAt(rows[..|rows| - 1], at, sequence)
  }

  datatype MirrorAcknowledgement = Advanced(head: MirrorHead) | Unchanged(head: MirrorHead)

  function Acknowledge(st: Storage, head: MirrorHead): Outcome<MirrorAcknowledgement> {
    var logged := RowAt(st.versioned, EntryRowSequence, head.sequence);
    match RowAt(st.outbox, OutboxRowSequence, head.sequence)
    case None => Outcome(Err(MirrorHeadUnknown(head.sequence)), st)
    case Some(recorded) =>
      if logged.None? || logged.value.digest != recorded.digest
      then Outcome(Err(OutboxEntryMismatch(head.sequence)), st)
      else if recorded.digest != head.digest then Outcome(Err(MirrorHeadForked(head.sequence)), st)
      else if st.cursor.Some? && head.sequence <= st.cursor.value.sequence
      then Outcome(Ok(Unchanged(st.cursor.value)), st)
      else Outcome(Ok(Advanced(head)), st.(cursor := Some(head)))
  }

  datatype Durability = LocalCommitted | QueuedForMirror | ServerCommitted

  function DurabilityOf(st: Storage, sequence: nat): Result<Durability> {
    if RowAt(st.commits, CommitRowSequence, sequence).None? then Err(UnknownCommitSequence(sequence))
    else
      match RowAt(st.outbox, OutboxRowSequence, sequence)
      case None => Ok(LocalCommitted)
      case Some(row) =>
        if st.cursor.Some? && row.sequence <= st.cursor.value.sequence then Ok(ServerCommitted) else Ok(QueuedForMirror)
  }

  /** The durability the store as a whole reports. */
  function StoreDurability(st: Storage): Durability {
    if st.policy.None? then LocalCommitted else if Unshipped(st) == [] then ServerCommitted else QueuedForMirror
  }

  function OutboxOf(entries: seq<Entry>): seq<OutboxRow> {
    if entries == [] then []
    else OutboxOf(entries[..|entries| - 1]) + [OutboxRow(entries[|entries| - 1].sequence,
                                                         entries[|entries| - 1].digest)]
  }

  /** In a mirrored store the outbox is the versioned log, row for row, and the
      cursor never passes the log. A local store queues nothing. */
  ghost predicate MirrorOk(st: Storage) {
    && (Mirrored(st) ==> st.outbox == OutboxOf(st.versioned))
    && (!Mirrored(st) ==> st.outbox == [])
    && CursorSequence(st) <= Sequence(st)
  }

  lemma {:induction false} FromOutbox(entries: seq<Entry>, start: nat)
    ensures From(OutboxOf(entries), OutboxRowSequence, start) == OutboxOf(EntriesFrom(entries, start))
  {
    if entries != [] {
      var init, last := entries[..|entries| - 1], entries[|entries| - 1];
      var row := OutboxRow(last.sequence, last.digest);
      FromOutbox(init, start);
      FromAppend(OutboxOf(init), row, OutboxRowSequence, start);
      assert OutboxOf(entries) == OutboxOf(init) + [row];
      var kept := EntriesFrom(init, start);
      assert (kept + [last])[..|kept|] == kept;
      assert kept + [] == kept;
    }
  }

  /** The unshipped suffix is exactly the versioned entries past the cursor. */
  lemma UnshippedIsSuffix(st: Storage)
    requires MirrorOk(st) && Mirrored(st)
    ensures Unshipped(st) == OutboxOf(EntriesFrom(st.versioned, CursorSequence(st) + 1))
  {
    assert st.outbox == OutboxOf(st.versioned);
    FromOutbox(st.versioned, CursorSequence(st) + 1);
  }

  lemma {:induction false} RowAtOutbox(entries: seq<Entry>, sequence: nat)
    ensures var e := RowAt(entries, EntryRowSequence, sequence);
            RowAt(OutboxOf(entries), OutboxRowSequence, sequence) ==
            if e.Some? then Some(OutboxRow(e.value.sequence, e.value.digest)) else None
    ensures RowAt(entries, EntryRowSequence, sequence).Some? ==>
              RowAt(entries, EntryRowSequence, sequence).value in entries
              && RowAt(entries, EntryRowSequence, sequence).value.sequence == sequence
  {
    if entries != [] {
      RowAtOutbox(entries[..|entries| - 1], sequence);
      assert OutboxOf(entries)[..|OutboxOf(entries)| - 1] == OutboxOf(entries[..|entries| - 1]);
    }
  }

  lemma {:induction false} RowAtLast<T>(rows: seq<T>, at: T -> nat, i: nat)
    requires i < |rows| && forall j :: i < j < |rows| ==> at(rows[j]) != at(rows[i])
    ensures RowAt(rows, at, at(rows[i])) == Some(rows[i])
  {
    if i < |rows| - 1 { RowAtLast(rows[..|rows| - 1], at, i); }
  }

  /** A mirrored store accepts exactly the heads of its retained entries; the
      cursor moves forward or not at all, and nothing else changes. */
  lemma AcknowledgeMeaning(st: Storage, head: MirrorHead)
    requires MirrorOk(st) && Mirrored(st) && Sequenced(st)
    ensures var out := Acknowledge(st, head);
            && (out.result.Ok? <==> exists i :: 0 <= i < |st.versioned| && st.versioned[i].sequence == head.sequence
                                                && st.versioned[i].digest == head.digest)
            && out.storage == st.(cursor := out.storage.cursor)
            && CursorSequence(out.storage) >= CursorSequence(st)
            && (out.result.Ok? ==> CursorSequence(out.storage) >= head.sequence)
            && (out.result.Err? ==> out.storage == st)
            && MirrorOk(out.storage)
  {
    RowAtOutbox(st.versioned, head.sequence);
    var logged := RowAt(st.versioned, EntryRowSequence, head.sequence);
    if i :| 0 <= i < |st.versioned|
            && st.versioned[i].sequence == head.sequence && st.versioned[i].digest == head.digest {
      RowAtLast(st.versioned, EntryRowSequence, i);
    }
    if logged.Some? {
      var i :| 0 <= i < |st.versioned| && st.versioned[i] == logged.value;
    }
  }

  lemma AppendMirror(st: Storage, e: Entry)
    requires MirrorOk(st) && e.sequence == Sequence(st) + 1
    ensures MirrorOk(AppendEntry(st, e))
  {
    assert (st.versioned + [e])[..|st.versioned|] == st.versioned;
  }

  // ---- History compaction ----

  datatype Acknowledgement = LocalAcknowledgement | MirrorAcknowledged(head: MirrorHead)
  datatype Compaction = Compaction(compacted: nat, retained: nat, checkpoint: Option<nat>)

  function ValidateAcknowledgement(st: Storage, ack: Acknowledgement): Result<()> {
    if st.policy.None? then Err(VersioningNotEnabled)
    else
      match (st.policy.value.topology, ack)
      case (LocalCheckpoint, LocalAcknowledgement) =>
        if st.cursor.Some? && Unshipped(st) != []
        then Err(HistoryCompactionUnacknowledged(Unshipped(st)[|Unshipped(st)| - 1].sequence,
                                                 Some(st.cursor.value.sequence)))
        else Ok(())
      case (Mirror, MirrorAcknowledged(_)) => Ok(())
      case _ => Err(HistoryCompactionTopologyMismatch)
  }

  function CheckpointSequence(c: Option<Checkpoint>): Option<nat> {
    if c.Some? then Some(c.value.metadata.sequence) else None
  }

  /** Read back and verify the checkpoint just written. */
  function Reload(h: Hash, st: Storage, written: Result<Storage>): Outcome<Checkpoint> {
    if written.Err? then Outcome(Err(written.error), st)
    else
      var reloaded := LatestCheckpoint(h, written.value);
      if reloaded.Err? then Outcome(Err(reloaded.error), written.value)
      else if reloaded.value.None? then Outcome(Err(CheckpointNothingToCover), written.value)
      else Outcome(Ok(reloaded.value.value), written.value)
  }

  /** A verified checkpoint that covers `current`: the latest one, or a new one. */
  function EnsureCovering(h: Hash, st: Storage, catalog: seq<FamilyIdentity>, current: nat): Outcome<Checkpoint> {
    var latest := LatestCheckpoint(h, st);
    if latest.Err? then Outcome(Err(latest.error), st)
    else if latest.value.Some? && latest.value.value.metadata.last >= current then Outcome(Ok(latest.value.value), st)
    else Reload(h, st, WriteCheckpoint(h, st, catalog))
  }

  /** A mirror must have acknowledged the covered head, and durably. */
  function MirrorCovers(st: Storage, ack: Acknowledgement, covered: nat): Result<()> {
    match ack
    case LocalAcknowledgement => Ok(())
    case MirrorAcknowledged(head) =>
      if head.sequence < covered then Err(HistoryCompactionUnacknowledged(covered, Some(head.sequence)))
      else if st.cursor.None? then Err(HistoryCompactionUnacknowledged(covered, None))
      else if st.cursor.value.sequence < covered
      then Err(HistoryCompactionUnacknowledged(covered, Some(st.cursor.value.sequence)))
      else Ok(())
  }

  function TrimCovered(h: Hash, st: Storage, k: Checkpoint, before: nat, ack: Acknowledgement): Outcome<Compaction> {
    var mirrored := MirrorCovers(st, ack, k.metadata.last);
    if mirrored.Err? then Outcome(Err(mirrored.error), st)
    else
      var trimmed := Trim(h, st, k);
      Outcome(Ok(Compaction(Saturating(before, trimmed.versionedCount), trimmed.versionedCount,
                            Some(k.metadata.sequence))), trimmed)
  }

  function TrimOver(h: Hash, covering: Outcome<Checkpoint>, before: nat, ack: Acknowledgement): Outcome<Compaction> {
    if covering.result.Err? then Outcome(Err(covering.result.error), covering.storage)
    else TrimCovered(h, covering.storage, covering.result.value, before, ack)
  }

  function NothingToCompact(h: Hash, st: Storage): Outcome<Compaction> {
    var latest := LatestCheckpoint(h, st);
    if latest.Err? then Outcome(Err(latest.error), st)
    else Outcome(Ok(Compaction(0, |st.versioned|, CheckpointSequence(latest.value))), st)
  }

  /** Compact covered history down to a retention budget. `current` is the commit
      sequence the caller reads, which an engaged staging session overlays. */
  function CompactHistory(h: Hash, st: Storage, catalog: seq<FamilyIdentity>, current: nat, maximum: nat,
                          ack: Acknowledgement)
    : Outcome<Compaction>
  {
    var valid := ValidateAcknowledgement(st, ack);
    if valid.Err? then Outcome(Err(valid.error), st)
    else if |st.versioned| <= maximum then NothingToCompact(h, st)
    else
      TrimOver(h, EnsureCovering(h, st, catalog, current), |st.versioned|, ack)
  }

  function ConfiguredAcknowledgement(st: Storage, current: nat): Result<Acknowledgement>
    requires st.policy.Some?
  {
    if st.policy.value.topology.LocalCheckpoint? then Ok(LocalAcknowledgement)
    else if st.cursor.Some? then Ok(MirrorAcknowledged(st.cursor.value))
    else Err(HistoryCompactionUnacknowledged(current, None))
  }

  /** Compact down to the durable policy's own budget. */
  function CompactConfigured(h: Hash, st: Storage, catalog: seq<FamilyIdentity>, current: nat): Outcome<Compaction> {
    if st.policy.None? then Outcome(Err(VersioningNotEnabled), st)
    else if |st.versioned| <= st.policy.value.maximumLive then NothingToCompact(h, st)
    else
      var ack := ConfiguredAcknowledgement(st, current);
      if ack.Err? then Outcome(Err(ack.error), st)
      else CompactHistory(h, st, catalog, current, st.policy.value.maximumLive, ack.value)
  }

  /** What every successful domain write runs afterwards. */
  function Maintain(h: Hash, st: Storage, catalog: seq<FamilyIdentity>, current: nat): Outcome<()> {
    if st.policy.None? then Outcome(Ok(()), st)
    else
      var out := CompactConfigured(h, st, catalog, current);
      if out.result.Err? then Outcome(Err(out.result.error), out.storage) else Outcome(Ok(()), out.storage)
  }

  /** Only the history planes may differ. */
  ghost predicate OnlyHistory(a: Storage, b: Storage) {
    b == a.(commits := b.commits, versioned := b.versioned, commitCount := b.commitCount,
            versionedCount := b.versionedCount, outbox := b.outbox, checkpoints := b.checkpoints,
            segments := b.segments, latestCheckpoint := b.latestCheckpoint)
  }

  /** Only the checkpoint plane may differ. */
  ghost predicate OnlyCheckpoints(a: Storage, b: Storage) {
    b == a.(checkpoints := b.checkpoints, segments := b.segments, latestCheckpoint := b.latestCheckpoint)
  }

  lemma WriteMovesCheckpoints(h: Hash, st: Storage, catalog: seq<FamilyIdentity>)
    ensures WriteCheckpoint(h, st, catalog).Ok? ==> OnlyCheckpoints(st, WriteCheckpoint(h, st, catalog).value)
  {
  }

  lemma ReloadMovesCheckpoints(h: Hash, st: Storage, written: Result<Storage>)
    requires written.Ok? ==> OnlyCheckpoints(st, written.value)
    ensures OnlyCheckpoints(st, Reload(h, st, written).storage)
  {
  }

  lemma CoveringMovesCheckpoints(h: Hash, st: Storage, catalog: seq<FamilyIdentity>, current: nat)
    ensures OnlyCheckpoints(st, EnsureCovering(h, st, catalog, current).storage)
  {
    WriteMovesCheckpoints(h, st, catalog);
    ReloadMovesCheckpoints(h, st, WriteCheckpoint(h, st, catalog));
  }

  lemma TrimOverMovesHistory(h: Hash, covering: Outcome<Checkpoint>, before: nat, ack: Acknowledgement)
    ensures OnlyHistory(covering.storage, TrimOver(h, covering, before, ack).storage)
  {
  }

  lemma CompactMovesHistory(h: Hash, st: Storage, catalog: seq<FamilyIdentity>, current: nat, maximum: nat,
                            ack: Acknowledgement)
    ensures OnlyHistory(st, CompactHistory(h, st, catalog, current, maximum, ack).storage)
  {
    if ValidateAcknowledgement(st, ack).Ok? && |st.versioned| > maximum {
      CoveringMovesCheckpoints(h, st, catalog, current);
      TrimOverMovesHistory(h, EnsureCovering(h, st, catalog, current), |st.versioned|, ack);
    }
  }

  /** Maintenance moves history and nothing else. */
  lemma MaintainMovesHistory(h: Hash, st: Storage, catalog: seq<FamilyIdentity>, current: nat)
    ensures OnlyHistory(st, Maintain(h, st, catalog, current).storage)
  {
    if st.policy.Some? && |st.versioned| > st.policy.value.maximumLive && ConfiguredAcknowledgement(st, current).Ok? {
      CompactMovesHistory(h, st, catalog, current, st.policy.value.maximumLive,
                          ConfiguredAcknowledgement(st, current).value);
    }
  }

  /** The one assumption on the hash: the segments of the checkpoint this store
      would cut now do not collide. */
  ghost predicate Collisionless(h: Hash, st: Storage, catalog: seq<FamilyIdentity>) {
    var c := CutCheckpoint(h, st, catalog);
    c.Ok? ==> Distinguished(h, c.value.segments)
  }

  /** The latest checkpoint already covers the sequence. */
  predicate CoveredAt(h: Hash, st: Storage, current: nat) {
    var latest := LatestCheckpoint(h, st);
    latest.Ok? && latest.value.Some? && latest.value.value.metadata.last >= current
  }

  /** That assumption where it is needed: where a checkpoint is cut. */
  ghost predicate CoverClear(h: Hash, st: Storage, catalog: seq<FamilyIdentity>, current: nat) {
    CoveredAt(h, st, current) || Collisionless(h, st, catalog)
  }

  ghost predicate CompactClear(h: Hash, st: Storage, catalog: seq<FamilyIdentity>, current: nat, maximum: nat,
                               ack: Acknowledgement)
  {
    ValidateAcknowledgement(st, ack).Ok? && |st.versioned| > maximum ==> CoverClear(h, st, catalog, current)
  }

  ghost predicate MaintainClear(h: Hash, st: Storage, catalog: seq<FamilyIdentity>, current: nat) {
    st.policy.Some? && |st.versioned| > st.policy.value.maximumLive && ConfiguredAcknowledgement(st, current).Ok? ==>
      var ack := ConfiguredAcknowledgement(st, current).value;
      CompactClear(h, st, catalog, current, st.policy.value.maximumLive, ack)
  }

  /** Rows within one segment's budget cannot collide, whatever the hash. */
  lemma SmallViewsNeverCollide(h: Hash, rows: seq<ViewRow>)
    requires Weight(rows) <= SEGMENT_BYTE_BUDGET
    ensures |Chunk(rows)| <= 1 && Distinguished(h, Chunk(rows))
  {
    SmallRowsFit(rows);
  }

  /** A call that may checkpoint and trim, but leaves the view, the tables, the
      cursors and every other slot as they were. */
  ghost predicate SameContent(h: Hash, a: Storage, b: Storage) {
    && OnlyHistory(a, b)
    && CurrentView(h, a).Ok? && CurrentView(h, b).Ok?
    && CurrentView(h, b).value.rows == CurrentView(h, a).value.rows
  }

  lemma SameContentRefl(h: Hash, w: World, st: Storage, catalog: seq<FamilyIdentity>)
    requires Inv(h, w, st, catalog)
    ensures SameContent(h, st, st)
  {
  }

  lemma SameContentTrans(h: Hash, a: Storage, b: Storage, c: Storage)
    requires SameContent(h, a, b) && SameContent(h, b, c)
    ensures SameContent(h, a, c)
  {
  }

  lemma WriteKeepsContent(h: Hash, w: World, st: Storage, catalog: seq<FamilyIdentity>)
    requires Inv(h, w, st, catalog) && Collisionless(h, st, catalog) && CutCheckpoint(h, st, catalog).Ok?
    ensures var st' := WriteCheckpoint(h, st, catalog).value;
            Inv(h, w, st', catalog) && SameContent(h, st, st')
                && LatestCheckpoint(h, st') == Ok(Some(CutCheckpoint(h, st, catalog).value))
  {
    CheckpointPreserves(h, w, st, catalog);
  }

  lemma CoveringPreserves(h: Hash, w: World, st: Storage, catalog: seq<FamilyIdentity>, current: nat)
    requires Inv(h, w, st, catalog) && CoverClear(h, st, catalog, current)
    ensures var out := EnsureCovering(h, st, catalog, current);
            && Inv(h, w, out.storage, catalog) && SameContent(h, st, out.storage)
            && (out.result.Ok? ==> LatestCheckpoint(h, out.storage) == Ok(Some(out.result.value)))
  {
    SameContentRefl(h, w, st, catalog);
    if !CoveredAt(h, st, current) && CutCheckpoint(h, st, catalog).Ok? { WriteKeepsContent(h, w, st, catalog); }
  }

  lemma TrimCoveredPreserves(h: Hash, w: World, st: Storage, catalog: seq<FamilyIdentity>, k: Checkpoint, before: nat,
                             ack: Acknowledgement)
    requires Inv(h, w, st, catalog) && LatestCheckpoint(h, st) == Ok(Some(k))
    ensures var out := TrimCovered(h, st, k, before, ack);
            Inv(h, w, out.storage, catalog) && SameContent(h, st, out.storage)
  {
    SameContentRefl(h, w, st, catalog);
    TrimPreserves(h, w, st, catalog);
  }

  /** Compaction, accepted or refused, keeps the invariant and the content. */
  lemma CompactPreserves(h: Hash, w: World, st: Storage, catalog: seq<FamilyIdentity>, current: nat, maximum: nat,
                         ack: Acknowledgement)
    requires Inv(h, w, st, catalog) && CompactClear(h, st, catalog, current, maximum, ack)
    ensures var out := CompactHistory(h, st, catalog, current, maximum, ack);
            Inv(h, w, out.storage, catalog) && SameContent(h, st, out.storage)
  {
    SameContentRefl(h, w, st, catalog);
    if ValidateAcknowledgement(st, ack).Ok? && |st.versioned| > maximum {
      CoveringPreserves(h, w, st, catalog, current);
      var covering := EnsureCovering(h, st, catalog, current);
      if covering.result.Ok? {
        var out := TrimCovered(h, covering.storage, covering.result.value, |st.versioned|, ack);
        TrimCoveredPreserves(h, w, covering.storage, catalog, covering.result.value, |st.versioned|, ack);
        SameContentTrans(h, st, covering.storage, out.storage);
      }
    }
  }

  lemma MaintainPreserves(h: Hash, w: World, st: Storage, catalog: seq<FamilyIdentity>, current: nat)
    requires Inv(h, w, st, catalog) && MaintainClear(h, st, catalog, current)
    ensures var out := Maintain(h, st, catalog, current);
            Inv(h, w, out.storage, catalog) && SameContent(h, st, out.storage)
  {
    SameContentRefl(h, w, st, catalog);
    if st.policy.Some? && |st.versioned| > st.policy.value.maximumLive && ConfiguredAcknowledgement(st, current).Ok? {
      CompactPreserves(h, w, st, catalog, current, st.policy.value.maximumLive,
                       ConfiguredAcknowledgement(st, current).value);
    }
  }

  lemma {:induction false} FromNarrower<T>(rows: seq<T>, at: T -> nat, start: nat, later: nat)
    requires start <= later
    ensures From(From(rows, at, start), at, later) == From(rows, at, later)
  {
    if rows != [] {
      var init, last := rows[..|rows| - 1], rows[|rows| - 1];
      FromNarrower(init, at, start, later);
      if at(last) >= start { FromAppend(From(init, at, start), last, at, later); }
      assert From(init, at, start) + [] == From(init, at, start);
    }
  }

  /** Trimming a prefix removes the same rows from log and outbox. */
  lemma TrimMirror(h: Hash, st: Storage, k: Checkpoint)
    requires MirrorOk(st) && Mirrored(st) && k.metadata.last <= CursorSequence(st)
    ensures MirrorOk(Trim(h, st, k)) && Unshipped(Trim(h, st, k)) == Unshipped(st)
  {
    TrimOutbox(h, st, k);
    FromNarrower(st.outbox, OutboxRowSequence, k.metadata.last + 1, CursorSequence(st) + 1);
  }

  lemma TrimOutbox(h: Hash, st: Storage, k: Checkpoint)
    requires MirrorOk(st) && Mirrored(st)
    ensures MirrorOk(Trim(h, st, k))
  {
    FromOutbox(st.versioned, k.metadata.last + 1);
  }

  ghost predicate KeepsUnshipped(a: Storage, b: Storage) {
    MirrorOk(b) && Mirrored(b) && Unshipped(b) == Unshipped(a) && b.cursor == a.cursor
  }

  lemma TrimOverMirror(h: Hash, st: Storage, covering: Outcome<Checkpoint>, before: nat, ack: Acknowledgement)
    requires MirrorOk(st) && Mirrored(st) && ack.MirrorAcknowledged? && OnlyCheckpoints(st, covering.storage)
    ensures KeepsUnshipped(st, TrimOver(h, covering, before, ack).storage)
  {
    if covering.result.Ok? && MirrorCovers(covering.storage, ack, covering.result.value.metadata.last).Ok? {
      TrimMirror(h, covering.storage, covering.result.value);
    }
  }

  /** Compaction of a mirrored store never removes an unshipped row: the
      unshipped suffix and the cursor survive every call, accepted or refused. */
  lemma CompactionKeepsUnshipped(h: Hash, st: Storage, catalog: seq<FamilyIdentity>, current: nat, maximum: nat,
                                 ack: Acknowledgement)
    requires MirrorOk(st) && Mirrored(st)
    ensures KeepsUnshipped(st, CompactHistory(h, st, catalog, current, maximum, ack).storage)
  {
    if ValidateAcknowledgement(st, ack).Ok? && |st.versioned| > maximum {
      CoveringMovesCheckpoints(h, st, catalog, current);
      TrimOverMirror(h, st, EnsureCovering(h, st, catalog, current), |st.versioned|, ack);
    }
  }

  // ---- What leaves the log ----

  /** How many committed entries have left the retained log. */
  function Dropped(st: Storage): int { Sequence(st) - |st.versioned| }

  lemma {:induction false} FromShrinks<T>(rows: seq<T>, at: T -> nat, start: nat)
    ensures |From(rows, at, start)| <= |rows|
  {
    if rows != [] { FromShrinks(rows[..|rows| - 1], at, start); }
  }

  lemma TrimOverShrinks(h: Hash, covering: Outcome<Checkpoint>, before: nat, ack: Acknowledgement)
    ensures |TrimOver(h, covering, before, ack).storage.versioned| <= |covering.storage.versioned|
  {
    if covering.result.Ok? {
      FromShrinks(covering.storage.versioned, EntryRowSequence, covering.result.value.metadata.last + 1);
    }
  }

  lemma CompactShrinks(h: Hash, st: Storage, catalog: seq<FamilyIdentity>, current: nat, maximum: nat,
                       ack: Acknowledgement)
    ensures |CompactHistory(h, st, catalog, current, maximum, ack).storage.versioned| <= |st.versioned|
  {
    CoveringMovesCheckpoints(h, st, catalog, current);
    TrimOverShrinks(h, EnsureCovering(h, st, catalog, current), |st.versioned|, ack);
  }

  lemma MaintainDrops(h: Hash, st: Storage, catalog: seq<FamilyIdentity>, current: nat)
    ensures var st' := Maintain(h, st, catalog, current).storage; Dropped(st') >= Dropped(st) && st'.policy == st.policy
  {
    MaintainMovesHistory(h, st, catalog, current);
    if st.policy.Some? && |st.versioned| > st.policy.value.maximumLive && ConfiguredAcknowledgement(st, current).Ok? {
      var ack := ConfiguredAcknowledgement(st, current).value;
      CompactShrinks(h, st, catalog, current, st.policy.value.maximumLive, ack);
    }
  }
}
