// What each step of a run writes: the entry a write adds to the history, the cursor an
// acknowledgement moves, and the session, group and intent the staging seam moves.
module Steps {
  import opened ByteStrings
  import opened Errors
  import opened Versioning
  import opened CanonicalViews
  import opened Catalogs
  import opened Stores
  import opened Invariants
  import opened Retention
  import opened Writes
  import opened Staging
  import opened StagingLaws
  import opened StagingSafety
  import opened Recovery
  import opened Ledgers
  import opened Lifetimes
  import opened Runs
  import opened Reports

  // ---- Writes ----

  /** One entry longer: these writes, in order, under the families registered. */
  ghost predicate Gains(sys: System, next: System, ws: seq<Write>) {
    && |next.history| == |sys.history| + 1 && sys.history <= next.history
    && EntryOf(sys.storage, sys.catalog, next.history[|sys.history|], ws)
    && next.storage.sequence == Some(Sequence(sys.storage) + 1)
    && next.storage.snapshot == Some(Snapshot(sys.storage) + 1)
    && next.catalog == sys.catalog && next.build == sys.build
  }

  lemma CommitsGain(before: Storage, after: Storage, catalog: seq<FamilyIdentity>, ws: seq<Write>)
    requires Commits(before, after, catalog, ws) && before.policy.Some?
    ensures var added := Added(before, after); |added| == 1 && EntryOf(before, catalog, added[0], ws)
  {
  }

  /** What an accepted commit leaves of the system, whatever its maintenance removes. */
  lemma CommittedGains(sys: System, done: Storage, after: Storage, ws: seq<Write>)
    requires Commits(sys.storage, done, sys.catalog, ws) && sys.storage.policy.Some?
    requires after.sequence == done.sequence && after.snapshot == done.snapshot
    ensures Gains(sys, sys.(storage := after, history := sys.history + Added(sys.storage, done)), ws)
  {
    CommitsGain(sys.storage, done, sys.catalog, ws);
  }

  lemma GroupStepIs(h: Hash, sys: System, ws: seq<Write>, done: Done, out: Done)
    requires done == CommitAtomic(h, sys.storage, sys.catalog, ws)
    requires out == PerformAtomic(h, sys.storage, sys.catalog, EngagedAt(sys), ws)
    ensures IssueGroup(h, sys, ws) ==
              sys.(storage := out.storage, history := sys.history + Added(sys.storage, done.storage))
    ensures done.result.Err? ==> done.storage == sys.storage && out == done
    ensures done.result.Ok? <==> ws != [] && Prepare(sys.storage.tables, sys.catalog, ws).Ok?
  {
    PerformAtomicIs(h, sys.storage, sys.catalog, EngagedAt(sys), ws, done);
  }

  /** A group that passes validation adds one entry holding its writes; any other
      changes nothing. */
  lemma GroupStepWrites(h: Hash, w: World, sys: System, ws: seq<Write>)
    requires sys.storage.policy.Some?
    ensures var next := Next(h, w, sys, IssueAtomic(ws));
            if ws != [] && Prepare(sys.storage.tables, sys.catalog, ws).Ok? then Gains(sys, next, ws) else next == sys
  {
    var done := CommitAtomic(h, sys.storage, sys.catalog, ws);
    var out := PerformAtomic(h, sys.storage, sys.catalog, EngagedAt(sys), ws);
    GroupStepIs(h, sys, ws, done, out);
    if done.result.Ok? {
      PerformAtomicReports(h, sys.storage, sys.catalog, EngagedAt(sys), ws);
      GroupReports(h, sys.storage, sys.catalog, ws);
      CommittedGains(sys, done.storage, out.storage, ws);
    } else {
      Nothing(sys.history);
    }
  }

  /** The writes of a call: an identified assert takes the next identifier. */
  ghost function CallWrites(st: Storage, call: Call): seq<Write> {
    if call.Keyed? || call.Batch? then WritesOf(call) else [IdentifiedWrite(st, call)]
  }

  /** So does a call while no session is engaged. */
  lemma CallStepWrites(h: Hash, w: World, sys: System, call: Call)
    requires sys.storage.policy.Some? && sys.build.None?
    ensures var next := Next(h, w, sys, Issue(call));
            if Direct(h, sys.storage, sys.catalog, call).result.Ok? then Gains(sys, next, CallWrites(sys.storage, call))
            else next == sys
  {
    DirectWrites(h, sys, call);
  }

  lemma DirectWrites(h: Hash, sys: System, call: Call)
    requires sys.storage.policy.Some? && sys.build.None?
    ensures if Direct(h, sys.storage, sys.catalog, call).result.Ok?
            then Gains(sys, IssueCall(h, sys, call), CallWrites(sys.storage, call))
            else IssueCall(h, sys, call) == sys
  {
    var done, out := Direct(h, sys.storage, sys.catalog, call), Perform(h, sys.storage, sys.catalog, call);
    CallStepIs(h, sys, call, done, out);
    if done.result.Ok? {
      PerformReports(h, sys.storage, sys.catalog, call);
      CallCommits(h, sys.storage, sys.catalog, call);
      CommittedGains(sys, done.storage, out.storage, CallWrites(sys.storage, call));
    } else {
      Nothing(sys.history);
    }
  }

  lemma CallStepIs(h: Hash, sys: System, call: Call, done: Done, out: Done)
    requires sys.build.None? && done == Direct(h, sys.storage, sys.catalog, call)
    requires out == Perform(h, sys.storage, sys.catalog, call)
    ensures IssueCall(h, sys, call) ==
              sys.(storage := out.storage, history := sys.history + Added(sys.storage, done.storage))
    ensures done.result.Err? ==> done.storage == sys.storage && out == done
  {
  }

  lemma CallCommits(h: Hash, st: Storage, catalog: seq<FamilyIdentity>, call: Call)
    requires Direct(h, st, catalog, call).result.Ok?
    ensures Commits(st, Direct(h, st, catalog, call).storage, catalog, CallWrites(st, call))
  {
    if call.Keyed? || call.Batch? {
      DomainCallReports(h, st, catalog, call);
    } else {
      IdentifiedCallReports(h, st, catalog, call);
    }
  }

  /** With a session in place, the rows the store and the session together stand for
      move as the store's rows would have. */
  lemma EngagedCallWrites(h: Hash, w: World, sys: System, call: Call)
    requires SystemOk(h, w, sys) && sys.build.Some? && sys.build.value.inventory == sys.catalog
    requires sys.build.value.session.base.sequence == Sequence(sys.storage) && Disciplined(w, call)
    ensures var next := Next(h, w, sys, Issue(call));
            && next.storage == sys.storage && next.history == sys.history && next.catalog == sys.catalog
            && next.build.Some?
            && Shadow(sys.storage, next.build.value.session) ==
                 Direct(h, Shadow(sys.storage, sys.build.value.session), sys.catalog, call).storage
  {
    StagedIsDirect(h, w, sys.storage, sys.catalog, sys.build.value.session, call);
  }

  // ---- The shipped cursor ----

  /** An acknowledged head moves the cursor if and only if it names a retained entry
      past the cursor; nothing else moves. */
  lemma AcknowledgeStepMoves(h: Hash, w: World, sys: System, head: MirrorHead)
    requires MirrorOk(sys.storage) && Mirrored(sys.storage) && Sequenced(sys.storage)
    ensures var next := Next(h, w, sys, AcknowledgeMirror(head));
            if Retains(sys.storage, head)
               && (sys.storage.cursor.Some? ==> head.sequence > sys.storage.cursor.value.sequence)
            then next == sys.(storage := sys.storage.(cursor := Some(head)))
            else next == sys
  {
    AcknowledgeIs(sys.storage, head);
  }

  ghost predicate Retains(st: Storage, head: MirrorHead) {
    exists i :: 0 <= i < |st.versioned|
                && st.versioned[i].sequence == head.sequence && st.versioned[i].digest == head.digest
  }

  lemma AcknowledgeIs(st: Storage, head: MirrorHead)
    requires MirrorOk(st) && Mirrored(st) && Sequenced(st)
    ensures Acknowledge(st, head).storage ==
              if Retains(st, head) && (st.cursor.Some? ==> head.sequence > st.cursor.value.sequence)
              then st.(cursor := Some(head)) else st
  {
    AcknowledgeMeaning(st, head);
  }

  // ---- Staging ----

  /** An empty session over the cursors of the store it was engaged on. */
  predicate FreshSession(st: Storage, s: Session) {
    && s.entries == [] && s.preImages == [] && s.base.head == st.head && s.base.starts == []
    && s.base.sequence == s.latestSequence == Sequence(st) && s.base.snapshot == s.latestSnapshot == Snapshot(st)
  }

  predicate Engages(sys: System, next: System) {
    && next.build.Some? && next == sys.(build := next.build) && next.build.value.inventory == sys.catalog
    && FreshSession(sys.storage, next.build.value.session)
  }

  /** A session is engaged exactly when none is and no group is parked; a plan's, also
      only with no compaction pending. */
  lemma BeginStepEngages(h: Hash, w: World, sys: System)
    requires sys.storage.policy.Some?
    ensures var next := Next(h, w, sys, BeginStaged);
            if sys.build.None? && sys.storage.slot.None? then Engages(sys, next) else next == sys
    ensures var next := Next(h, w, sys, BeginPlan);
            if sys.build.None? && sys.storage.slot.None? && sys.storage.intent.None? then Engages(sys, next)
            else next == sys
  {
  }

  /** The system once its session has ended with its entries parked. */
  function ParkedAs(sys: System, intent: Option<Intent>): System
    requires sys.build.Some?
  {
    var s := sys.build.value.session;
    sys.(storage := sys.storage.(slot := Some(StagedGroup(s.entries, s.preImages)), intent := intent), build := None)
  }

  /** A session ends by parking what it buffered, exactly when it buffered something
      and nothing was committed since it was engaged. */
  lemma ParkStepParks(h: Hash, w: World, sys: System)
    requires BuildOk(h, w, sys.storage, sys.build) && sys.build.Some?
    ensures var s := sys.build.value.session;
            Next(h, w, sys, ParkStaged) ==
              if s.entries != [] && s.base.sequence == Sequence(sys.storage) then ParkedAs(sys, sys.storage.intent)
              else sys.(build := None)
  {
    BuildParks(h, w, sys.storage, sys.build);
    ParkWrites(sys.storage, sys.build.value.session, None);
  }

  /** A plan is parked with its intent, under the same condition and with no compaction
      pending, even when the fault strikes. */
  lemma ParkPlanStepParks(h: Hash, w: World, sys: System, fault: Option<Fault>)
    requires BuildOk(h, w, sys.storage, sys.build) && sys.build.Some?
    ensures var s := sys.build.value.session;
            Next(h, w, sys, ParkPlan(fault)) ==
              if s.entries != [] && s.base.sequence == Sequence(sys.storage) && sys.storage.intent.None?
              then ParkedAs(sys, Some(Intent(Planned, None))) else sys.(build := None)
  {
    BuildParks(h, w, sys.storage, sys.build);
    ParkWrites(sys.storage, sys.build.value.session, fault);
  }

  lemma BuildParks(h: Hash, w: World, st: Storage, build: Option<Build>)
    requires BuildOk(h, w, st, build) && build.Some?
    ensures var s := build.value.session;
            s.entries != [] && s.base.sequence == Sequence(st) ==> Park(st, Some(s)).result.Ok?
  {
  }

  lemma ParkWrites(st: Storage, s: Session, fault: Option<Fault>)
    requires s.entries != [] && s.base.sequence == Sequence(st) ==> Park(st, Some(s)).result.Ok?
    ensures var stands, parked := s.entries != [] && s.base.sequence == Sequence(st),
                                  st.(slot := Some(StagedGroup(s.entries, s.preImages)));
            && Park(st, Some(s)).storage == (if stands then parked else st)
            && ParkCompaction(st, Some(s), fault).storage ==
                 if stands && st.intent.None? then parked.(intent := Some(Intent(Planned, None))) else st
  {
  }

  /** The store stands where the session found it: the same head, the same counters, and
      the same next identifier in every table it minted from. */
  predicate Unmoved(st: Storage, base: StagingBase) {
    && st.head == base.head && Sequence(st) == base.sequence && Snapshot(st) == base.snapshot
    && forall i :: 0 <= i < |base.starts| ==>
         base.starts[i].next ==
           if base.starts[i].table in st.identified then st.identified[base.starts[i].table] else 1
  }

  /** On any store, whatever its rows: a session is parked exactly on a store that has
      not moved and holds no group, a plan also with no compaction pending; a fault armed
      for it strikes once, after both are written. */
  lemma ParkVerdict(st: Storage, s: Session, fault: Option<Fault>)
    requires s.entries != []
    ensures var out, free := Park(st, Some(s)), Unmoved(st, s.base) && st.slot.None?;
            && (out.result.Ok? <==> free)
            && out.storage == (if free then st.(slot := Some(StagedGroup(s.entries, s.preImages))) else st)
    ensures var out, free := ParkCompaction(st, Some(s), fault),
                             Unmoved(st, s.base) && st.slot.None? && st.intent.None?;
            && (out.result.Ok? <==> free && fault != Some(AfterPlanPersisted))
            && (out.storage, out.fault) ==
                 (if free then st.(slot := Some(StagedGroup(s.entries, s.preImages)),
                                   intent := Some(Intent(Planned, None))) else st,
                  if free && fault == Some(AfterPlanPersisted) then None else fault)
  {
  }

  lemma {:induction false} RowIsThere<T>(rows: seq<T>, at: T -> nat, sequence: nat)
    ensures var row := RowAt(rows, at, sequence); row.Some? ==> row.value in rows && at(row.value) == sequence
    ensures RowAt(rows, at, sequence).None? <==> forall r :: r in rows ==> at(r) != sequence
  {
    if rows != [] { RowIsThere(rows[..|rows| - 1], at, sequence); }
  }

  /** On any store, even a damaged one: an acknowledged head is known only to a store
      whose outbox holds its sequence, and accepted only if outbox and log both hold that
      sequence with that very digest. */
  lemma AcknowledgeVerdict(st: Storage, head: MirrorHead)
    ensures Acknowledge(st, head).result == Err(MirrorHeadUnknown(head.sequence)) <==>
            forall r :: r in st.outbox ==> r.sequence != head.sequence
    ensures Acknowledge(st, head).result.Ok? ==>
              && (exists r :: r in st.outbox && r.sequence == head.sequence && r.digest == head.digest)
              && (exists e :: e in st.versioned && e.sequence == head.sequence && e.digest == head.digest)
    ensures Acknowledge(st, head).result.Err? ==>
              || (forall r :: r in st.outbox ==> r.sequence != head.sequence)
              || (forall e :: e in st.versioned ==> e.sequence != head.sequence)
              || (exists r :: r in st.outbox && r.sequence == head.sequence && r.digest != head.digest)
              || (exists e :: e in st.versioned && e.sequence == head.sequence && e.digest != head.digest)
  {
    RowIsThere(st.outbox, OutboxRowSequence, head.sequence);
    RowIsThere(st.versioned, EntryRowSequence, head.sequence);
  }
}
