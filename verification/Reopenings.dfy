// Recovery across reopenings: a crashed run held its inventory in registration order,
// every run after it lists the durable rows in table order.
module Reopenings {
  import opened ByteStrings
  import opened Errors
  import opened Versioning
  import opened CanonicalViews
  import opened Checkpoints
  import opened Catalogs
  import opened Stores
  import opened Invariants
  import opened Histories
  import opened Retention
  import opened Writes
  import opened Rebuilding
  import opened Staging
  import opened StagingLaws
  import opened Imports
  import opened Recovery
  import opened Ledgers
  import opened Lifetimes
  import opened Runs

  // ---- Checkpoints that differ in the order of their inventory ----

  ghost predicate ListAlike(a: seq<FamilyIdentity>, b: seq<FamilyIdentity>) {
    forall t :: FindTable(a, t) == FindTable(b, t)
  }

  /** One checkpoint, but for the order in which it names the inventory and so its
      own digest. */
  ghost predicate Reordered(a: Metadata, b: Metadata) {
    && b == a.(inventory := a.inventory.(families := b.inventory.families), digest := b.digest)
    && ListAlike(a.inventory.families, b.inventory.families)
  }

  /** One store, but for the order in which its checkpoints name the inventory. */
  ghost predicate SameButInventory(a: Storage, b: Storage) {
    && b == a.(checkpoints := b.checkpoints)
    && a.checkpoints.Keys == b.checkpoints.Keys
    && forall n :: n in a.checkpoints ==> Reordered(a.checkpoints[n], b.checkpoints[n])
  }

  /** Both sequences list the durable inventory. */
  ghost predicate BothList(a: seq<FamilyIdentity>, b: seq<FamilyIdentity>, registrations: map<Name, FamilyIdentity>) {
    DistinctTables(a) && DistinctTables(b) && Lists(a, registrations) && Lists(b, registrations)
  }

  lemma {:induction false} RowsForIgnoresInventory(v: View, a: seq<FamilyIdentity>, b: seq<FamilyIdentity>,
                                                   keys: seq<ViewKey>)
    requires SelfDescribing(v) && forall k :: k in keys ==> k in v.touched
    ensures RowsFor(v, a, keys) == RowsFor(v, b, keys)
  {
    if keys != [] {
      assert keys[|keys| - 1] in keys;
      RowsForIgnoresInventory(v, a, b, keys[..|keys| - 1]);
    }
  }

  /** A fold names its own families, so its rows do not depend on the catalog. */
  lemma RowsIgnoreInventory(h: Hash, w: World, st: Storage, a: seq<FamilyIdentity>, b: seq<FamilyIdentity>,
                            c: Option<Checkpoint>)
    requires FoldOk(h, w, st, c)
    ensures IntoRows(ViewOver(h, st, c).value, a) == IntoRows(ViewOver(h, st, c).value, b)
  {
    var v := ViewOver(h, st, c).value;
    RowsForIgnoresInventory(v, a, b, InViewOrder(v.touched - v.rows.Keys));
    RowsForIgnoresInventory(v, a, b, InViewOrder(v.rows.Keys));
  }

  lemma FoldRowsAlike(h: Hash, rows: seq<ViewRow>, entries: seq<Entry>, head: Option<Digest>, a: seq<FamilyIdentity>,
                      b: seq<FamilyIdentity>)
    requires Fold(h, rows, entries, head).Ok?
    requires IntoRows(Fold(h, rows, entries, head).value, a) == IntoRows(Fold(h, rows, entries, head).value, b)
    ensures FoldRows(h, rows, entries, head, a) == FoldRows(h, rows, entries, head, b)
  {
  }

  lemma MetadataAlike(h: Hash, st: Storage, a: seq<FamilyIdentity>, b: seq<FamilyIdentity>, c: Option<Checkpoint>,
                      entries: seq<Entry>, v: View, segments: seq<Segment>)
    requires st.policy.Some? && entries != [] && StoreSchemaHash(h, a) == StoreSchemaHash(h, b) && ListAlike(a, b)
    ensures Reordered(CutMetadata(h, st, a, c, entries, v, segments), CutMetadata(h, st, b, c, entries, v, segments))
  {
  }

  lemma CutOverIs(h: Hash, st: Storage, catalog: seq<FamilyIdentity>, c: Option<Checkpoint>, entries: seq<Entry>,
                  folded: Result<FoldedRows>)
    requires st.policy.Some? && entries == EntriesFrom(st.versioned, BaseOf(c).after + 1)
    requires folded == FoldRows(h, BaseOf(c).rows, entries, BaseOf(c).head, catalog)
    ensures entries != [] && folded.Ok? ==>
              var segments := Chunk(folded.value.rows.rows);
              CutOver(h, st, catalog, c) ==
                    Ok(Checkpoint(CutMetadata(h, st, catalog, c, entries, folded.value.view, segments), segments))
    ensures entries == [] || folded.Err? ==> CutOver(h, st, catalog, c).Err?
  {
  }

  lemma CutOverAlike(h: Hash, st: Storage, a: seq<FamilyIdentity>, b: seq<FamilyIdentity>, c: Option<Checkpoint>,
                     entries: seq<Entry>, folded: Result<FoldedRows>)
    requires st.policy.Some? && StoreSchemaHash(h, a) == StoreSchemaHash(h, b) && ListAlike(a, b)
    requires entries == EntriesFrom(st.versioned, BaseOf(c).after + 1)
    requires folded == FoldRows(h, BaseOf(c).rows, entries, BaseOf(c).head, a)
    requires folded == FoldRows(h, BaseOf(c).rows, entries, BaseOf(c).head, b)
    ensures CutOver(h, st, a, c).Ok? == CutOver(h, st, b, c).Ok?
    ensures CutOver(h, st, a, c).Ok? ==>
              var ka, kb := CutOver(h, st, a, c).value, CutOver(h, st, b, c).value;
              ka.segments == kb.segments && Reordered(ka.metadata, kb.metadata)
  {
    CutOverIs(h, st, a, c, entries, folded);
    CutOverIs(h, st, b, c, entries, folded);
    if entries != [] && folded.Ok? {
      MetadataAlike(h, st, a, b, c, entries, folded.value.view, Chunk(folded.value.rows.rows));
    }
  }

  lemma CutOverSame(h: Hash, w: World, st: Storage, a: seq<FamilyIdentity>, b: seq<FamilyIdentity>,
                    c: Option<Checkpoint>)
    requires st.policy.Some? && FoldOk(h, w, st, c) && StoreSchemaHash(h, a) == StoreSchemaHash(h, b) && ListAlike(a, b)
    ensures CutOver(h, st, a, c).Ok? == CutOver(h, st, b, c).Ok?
    ensures CutOver(h, st, a, c).Ok? ==>
              var ka, kb := CutOver(h, st, a, c).value, CutOver(h, st, b, c).value;
              ka.segments == kb.segments && Reordered(ka.metadata, kb.metadata)
  {
    var base := BaseOf(c);
    var entries := EntriesFrom(st.versioned, base.after + 1);
    RowsIgnoreInventory(h, w, st, a, b, c);
    FoldRowsAlike(h, base.rows, entries, base.head, a, b);
    CutOverAlike(h, st, a, b, c, entries, FoldRows(h, base.rows, entries, base.head, a));
  }

  lemma CutAlike(h: Hash, w: World, st: Storage, a: seq<FamilyIdentity>, b: seq<FamilyIdentity>)
    requires Ready(h, w, st, a) && BothList(a, b, st.registrations)
    ensures CutCheckpoint(h, st, a).Ok? == CutCheckpoint(h, st, b).Ok?
    ensures CutCheckpoint(h, st, a).Ok? ==>
              var ka, kb := CutCheckpoint(h, st, a).value, CutCheckpoint(h, st, b).value;
              ka.segments == kb.segments && Reordered(ka.metadata, kb.metadata)
  {
    var c := LatestCheckpoint(h, st).value;
    SchemaHashIgnoresOrder(h, a, b, st.registrations);
    CutOverSame(h, w, st, a, b, c);
    CutIs(h, st, a, c);
    CutIs(h, st, b, c);
  }

  // ---- A stage under another listing ----

  lemma ReadyUnder(h: Hash, w: World, st: Storage, a: seq<FamilyIdentity>, b: seq<FamilyIdentity>)
    requires Ready(h, w, st, a) && Lists(b, st.registrations)
    ensures Ready(h, w, st, b)
  {
  }

  lemma CollisionlessUnder(h: Hash, w: World, st: Storage, a: seq<FamilyIdentity>, b: seq<FamilyIdentity>)
    requires Ready(h, w, st, a) && BothList(a, b, st.registrations) && Collisionless(h, st, a)
    ensures Collisionless(h, st, b)
  {
    CutAlike(h, w, st, a, b);
  }

  lemma PlannedUnder(h: Hash, w: World, st: Storage, a: seq<FamilyIdentity>, b: seq<FamilyIdentity>)
    requires PlannedStage(h, w, st, a) && BothList(a, b, st.registrations)
    ensures PlannedStage(h, w, st, b)
  {
    var entries := st.slot.value.entries;
    ReadyUnder(h, w, st, a, b);
    GroupPreserves(h, w, st, a, entries);
    CollisionlessUnder(h, w, AppendEntries(st, entries), a, b);
  }

  /** A stage of the plan is one whichever way the inventory is listed. */
  lemma StageUnder(h: Hash, w: World, st: Storage, a: seq<FamilyIdentity>, b: seq<FamilyIdentity>)
    requires Stage(h, w, st, a) && BothList(a, b, st.registrations)
    ensures Stage(h, w, st, b)
    ensures PlannedStage(h, w, st, a) ==> PlannedStage(h, w, st, b)
    ensures AppliedStage(h, w, st, a) ==> AppliedStage(h, w, st, b)
    ensures CheckpointedStage(h, w, st, a) ==> CheckpointedStage(h, w, st, b)
  {
    if PlannedStage(h, w, st, a) { PlannedUnder(h, w, st, a, b); }
    if AppliedStage(h, w, st, a) {
      ReadyUnder(h, w, st, a, b);
      CollisionlessUnder(h, w, st, a, b);
    }
    if CheckpointedStage(h, w, st, a) { ReadyUnder(h, w, st, a, b); }
  }

  // ---- Where a run ends, listing by listing ----

  /** The plan's checkpoint is published: what is left to do reads no inventory. */
  predicate Published(h: Hash, st: Storage) {
    match st.intent
    case None => true
    case Some(Intent(Planned, _)) => false
    case Some(Intent(Applied, _)) =>
      var latest := LatestCheckpoint(h, st);
      latest.Ok? && latest.value.Some? && latest.value.value.metadata.last == Sequence(st)
    case Some(Intent(Checkpointed, _)) => true
  }

  /** A store compacted over the checkpoint it just published, or waiting for a mirror. */
  function CompactedOver(h: Hash, st: Storage, k: Checkpoint): Storage
    requires st.policy.Some?
  {
    if !Releases(st) then st
    else (if |st.versioned| <= st.policy.value.maximumLive then st else Trim(h, st, k)).(intent := None)
  }

  lemma CheckpointedEnd(h: Hash, w: World, st: Storage, catalog: seq<FamilyIdentity>, k: Checkpoint)
    requires CheckpointedStage(h, w, st, catalog) && LatestCheckpoint(h, st) == Ok(Some(k))
    ensures End(h, st, catalog, w.identified).storage == CompactedOver(h, st, k)
  {
    CheckpointedPhase(h, st, catalog, w.identified);
    CompactedIs(h, st, catalog, k);
  }

  lemma CompactedIs(h: Hash, st: Storage, catalog: seq<FamilyIdentity>, k: Checkpoint)
    requires st.policy.Some? && (!Mirrored(st) ==> st.cursor.None?)
    requires LatestCheckpoint(h, st) == Ok(Some(k)) && k.metadata.last == Sequence(st)
    ensures var out := CompactConfigured(h, st, catalog, Sequence(st));
            && out.result.Ok? == Releases(st)
            && CompactedOver(h, st, k) == if Releases(st) then out.storage.(intent := None) else out.storage
  {
    if |st.versioned| > st.policy.value.maximumLive { CoveredCompacts(h, st, catalog, k); }
  }

  lemma CoveredCovers(h: Hash, st: Storage, catalog: seq<FamilyIdentity>)
    requires Covered(h, st)
    ensures CoverPlan(h, st, catalog, Sequence(st)) == Outcome(Ok(()), st)
  {
  }

  lemma CoveredEnd(h: Hash, w: World, st: Storage, catalog: seq<FamilyIdentity>, k: Checkpoint)
    requires AppliedStage(h, w, st, catalog) && Covered(h, st) && LatestCheckpoint(h, st) == Ok(Some(k))
    ensures End(h, st, catalog, w.identified).storage ==
              CompactedOver(h, st.(intent := Some(Intent(Checkpointed, Some(Sequence(st))))), k)
  {
    CoveredCovers(h, st, catalog);
    AppliedAdvances(h, w, st, catalog);
    EndAfterPhase(h, st, catalog, w.identified);
    var p := RunPhase(h, st, catalog, w.identified, None, None).storage;
    InvIgnoresSlot(h, w, st, catalog, st.slot, p.intent);
    CheckpointedEnd(h, w, p, catalog, k);
  }

  /** Once published, the run ends alike under any listing. */
  lemma PublishedEnd(h: Hash, w: World, st: Storage, a: seq<FamilyIdentity>, b: seq<FamilyIdentity>)
    requires Stage(h, w, st, a) && BothList(a, b, st.registrations) && Published(h, st)
    ensures End(h, st, a, w.identified).storage == End(h, st, b, w.identified).storage
  {
    StageUnder(h, w, st, a, b);
    if st.intent.Some? {
      var k := LatestCheckpoint(h, st).value.value;
      if st.intent.value.phase.Applied? {
        CoveredEnd(h, w, st, a, k);
        CoveredEnd(h, w, st, b, k);
      } else {
        CheckpointedEnd(h, w, st, a, k);
        CheckpointedEnd(h, w, st, b, k);
      }
    }
  }

  /** What an applied plan publishes. */
  lemma AppliedPublishes(h: Hash, w: World, st: Storage, catalog: seq<FamilyIdentity>)
    requires AppliedStage(h, w, st, catalog) && !Covered(h, st)
    ensures CutCheckpoint(h, st, catalog).Ok?
    ensures var k := CutCheckpoint(h, st, catalog).value;
            && CoverPlan(h, st, catalog, Sequence(st)).storage == PutCheckpoint(h, st, k)
            && LatestCheckpoint(h, PutCheckpoint(h, st, k)) == Ok(Some(k))
  {
    AppliedCovers(h, w, st, catalog);
    UncoveredWrites(h, st, catalog, LatestCheckpoint(h, st).value);
    CheckpointPreserves(h, w, st, catalog);
  }

  lemma AppliedEnd(h: Hash, w: World, st: Storage, catalog: seq<FamilyIdentity>)
    requires AppliedStage(h, w, st, catalog) && !Covered(h, st)
    ensures CutCheckpoint(h, st, catalog).Ok?
    ensures var k := CutCheckpoint(h, st, catalog).value;
            End(h, st, catalog, w.identified).storage ==
            CompactedOver(h, PutCheckpoint(h, st, k).(intent := Some(Intent(Checkpointed, Some(Sequence(st))))), k)
  {
    AppliedPublishes(h, w, st, catalog);
    AppliedCovers(h, w, st, catalog);
    AppliedAdvances(h, w, st, catalog);
    EndAfterPhase(h, st, catalog, w.identified);
    var k, p := CutCheckpoint(h, st, catalog).value, RunPhase(h, st, catalog, w.identified, None, None).storage;
    InvIgnoresSlot(h, w, PutCheckpoint(h, st, k), catalog, st.slot, p.intent);
    CheckpointedEnd(h, w, p, catalog, k);
  }

  lemma PutAlike(h: Hash, st: Storage, ka: Checkpoint, kb: Checkpoint)
    requires ka.segments == kb.segments && Reordered(ka.metadata, kb.metadata)
    ensures SameButInventory(PutCheckpoint(h, st, ka), PutCheckpoint(h, st, kb))
  {
  }

  lemma TrimAlike(h: Hash, a: Storage, b: Storage, ka: Checkpoint, kb: Checkpoint)
    requires SameButInventory(a, b) && Reordered(ka.metadata, kb.metadata)
    ensures SameButInventory(Trim(h, a, ka), Trim(h, b, kb))
  {
  }

  lemma IntentAlike(a: Storage, b: Storage, intent: Option<Intent>)
    requires SameButInventory(a, b)
    ensures SameButInventory(a.(intent := intent), b.(intent := intent))
  {
  }

  lemma TidyAlike(h: Hash, a: Storage, b: Storage, ka: Checkpoint, kb: Checkpoint)
    requires SameButInventory(a, b) && a.policy.Some? && Reordered(ka.metadata, kb.metadata)
    ensures SameButInventory(CompactedOver(h, a, ka), CompactedOver(h, b, kb))
  {
    if Releases(a) {
      TrimAlike(h, a, b, ka, kb);
      IntentAlike(a, b, None);
      IntentAlike(Trim(h, a, ka), Trim(h, b, kb), None);
    }
  }

  lemma AppliedEndsAlike(h: Hash, w: World, st: Storage, a: seq<FamilyIdentity>, b: seq<FamilyIdentity>)
    requires AppliedStage(h, w, st, a) && AppliedStage(h, w, st, b) && BothList(a, b, st.registrations)
             && !Covered(h, st)
    ensures SameButInventory(End(h, st, a, w.identified).storage, End(h, st, b, w.identified).storage)
    ensures End(h, st, a, w.identified).storage == End(h, st, b, w.identified).storage <==> a == b
  {
    AppliedEnd(h, w, st, a);
    AppliedEnd(h, w, st, b);
    CutAlike(h, w, st, a, b);
    var ka, kb := CutCheckpoint(h, st, a).value, CutCheckpoint(h, st, b).value;
    var intent := Some(Intent(Checkpointed, Some(Sequence(st))));
    PutAlike(h, st, ka, kb);
    TidyAlike(h, PutCheckpoint(h, st, ka).(intent := intent), PutCheckpoint(h, st, kb).(intent := intent), ka, kb);
    AppliedRecords(h, w, st, a);
    AppliedRecords(h, w, st, b);
  }

  /** After the plan is applied it is still to be covered. */
  lemma PlannedIsUncovered(h: Hash, w: World, st: Storage, catalog: seq<FamilyIdentity>)
    requires PlannedStage(h, w, st, catalog)
    ensures var p := RunPhase(h, st, catalog, w.identified, None, None).storage;
            && AppliedStage(h, w, p, catalog) && !Covered(h, p) && p.registrations == st.registrations
            && End(h, st, catalog, w.identified).storage == End(h, p, catalog, w.identified).storage
  {
    PlannedAdvances(h, w, st, catalog);
    PhaseKeepsFault(h, st, catalog, w.identified);
    EndAfterPhase(h, st, catalog, w.identified);
    GroupPreserves(h, w, st, catalog, st.slot.value.entries);
    var appended, p := AppendEntries(st, st.slot.value.entries), RunPhase(h, st, catalog, w.identified, None, None);
    InvIgnoresSlot(h, w, appended, catalog, None, p.storage.intent);
  }

  lemma PlannedPhaseReadsNoInventory(h: Hash, st: Storage, a: seq<FamilyIdentity>, b: seq<FamilyIdentity>,
                                     directory: Directory)
    requires st.intent == Some(Intent(Planned, None))
    ensures RunPhase(h, st, a, directory, None, None) == RunPhase(h, st, b, directory, None, None)
  {
  }

  /** Two runs from one stage of a plan end alike but for the order in which their
      checkpoint names the inventory: equal if and only if they list it in one
      order, or the checkpoint was already published. */
  lemma RecoveryNeedsCatalogOrder(h: Hash, w: World, st: Storage, a: seq<FamilyIdentity>, b: seq<FamilyIdentity>)
    requires Stage(h, w, st, a) && BothList(a, b, st.registrations)
    ensures SameButInventory(End(h, st, a, w.identified).storage, End(h, st, b, w.identified).storage)
    ensures End(h, st, a, w.identified).storage == End(h, st, b, w.identified).storage <==> a == b || Published(h, st)
  {
    StageUnder(h, w, st, a, b);
    if Published(h, st) {
      PublishedEnd(h, w, st, a, b);
    } else if st.intent.value.phase.Applied? {
      AppliedEndsAlike(h, w, st, a, b);
    } else {
      PlannedIsUncovered(h, w, st, a);
      PlannedIsUncovered(h, w, st, b);
      PlannedPhaseReadsNoInventory(h, st, a, b, w.identified);
      AppliedEndsAlike(h, w, RunPhase(h, st, a, w.identified, None, None).storage, a, b);
    }
  }

  // ---- Crash schedules ----

  /** Recoveries cut short one after the other: each opens what the one before left
      and lists the durable inventory. */
  ghost predicate Reopens(h: Hash, st: Storage, directory: Directory, left: seq<Storage>)
    decreases |left|
  {
    left == [] ||
    (RunLeaves(h, st, CatalogRows(st.registrations), directory, left[0]) && Reopens(h, left[0], directory, left[1..]))
  }

  /** A schedule of crashes: the first run holds the inventory its engine was
      running with, every later one reopened the store. */
  ghost predicate Crashes(h: Hash, st: Storage, held: seq<FamilyIdentity>, directory: Directory, left: seq<Storage>) {
    left == [] || (RunLeaves(h, st, held, directory, left[0]) && Reopens(h, left[0], directory, left[1..]))
  }

  /** What the last crash left. */
  function LastLeft(st: Storage, left: seq<Storage>): Storage { if left == [] then st else left[|left| - 1] }

  /** The run that completes after the schedule. */
  function Completed(h: Hash, st: Storage, held: seq<FamilyIdentity>, directory: Directory,
                     left: seq<Storage>): Resumed {
    var x := LastLeft(st, left);
    End(h, x, if left == [] then held else CatalogRows(x.registrations), directory)
  }

  lemma StageKeepsRegistrations(h: Hash, w: World, st: Storage, catalog: seq<FamilyIdentity>)
    requires Stage(h, w, st, catalog)
    ensures End(h, st, catalog, w.identified).storage.registrations == st.registrations
    ensures End(h, st, catalog, w.identified).storage.policy == st.policy
  {
    if st.intent.Some? {
      match st.intent.value.phase {
        case Planned =>
          PlanCompletes(h, w, st, catalog);
          AppendMeaning(st, st.slot.value.entries);
        case Applied => AppliedCompletes(h, w, st, catalog);
        case Checkpointed => CheckpointedCompletes(h, w, st, catalog);
      }
    }
  }

  lemma CrashKeepsRegistrations(h: Hash, w: World, st: Storage, catalog: seq<FamilyIdentity>, x: Storage)
    requires Stage(h, w, st, catalog) && RunLeaves(h, st, catalog, w.identified, x)
    ensures SameEnd(h, w, st, catalog, x) && x.registrations == st.registrations
  {
    RunCrash(h, w, st, catalog, x);
    StageKeepsRegistrations(h, w, st, catalog);
    StageKeepsRegistrations(h, w, x, catalog);
  }

  /** However often recoveries are cut short, wherever, the one that completes
      leaves exactly what the first of them would have left undisturbed. */
  lemma {:induction false} ReopeningsEndAlike(h: Hash, w: World, st: Storage, left: seq<Storage>)
    requires Stage(h, w, st, CatalogRows(st.registrations)) && Reopens(h, st, w.identified, left)
    ensures LastLeft(st, left).registrations == st.registrations
    ensures SameEnd(h, w, st, CatalogRows(st.registrations), LastLeft(st, left))
    decreases |left|
  {
    if left != [] {
      CrashKeepsRegistrations(h, w, st, CatalogRows(st.registrations), left[0]);
      ReopeningsEndAlike(h, w, left[0], left[1..]);
      LastLeftLater(st, left);
    }
  }

  /** The listing a reopening reads back. */
  lemma RowsListToo(h: Hash, w: World, st: Storage, held: seq<FamilyIdentity>)
    requires CatalogOk(w, st, held) && DistinctTables(held)
    ensures BothList(held, CatalogRows(st.registrations), st.registrations)
  {
    ReloadedLists(st.registrations);
    RowsDistinct(st.registrations);
  }

  /** What the first crash leaves, as the reopening that follows lists it. */
  lemma FirstCrash(h: Hash, w: World, st: Storage, held: seq<FamilyIdentity>, x: Storage)
    requires Stage(h, w, st, held) && CatalogOk(w, st, held) && DistinctTables(held)
    requires RunLeaves(h, st, held, w.identified, x)
    ensures BothList(held, CatalogRows(st.registrations), st.registrations)
    ensures x.registrations == st.registrations && SameEnd(h, w, st, held, x)
    ensures Stage(h, w, x, CatalogRows(x.registrations))
  {
    RowsListToo(h, w, st, held);
    CrashKeepsRegistrations(h, w, st, held, x);
    StageUnder(h, w, x, held, CatalogRows(st.registrations));
  }

  lemma LastLeftLater(st: Storage, left: seq<Storage>)
    requires left != []
    ensures LastLeft(left[0], left[1..]) == LastLeft(st, left)
  {
  }

  /** Where a schedule that crashed at least once ends: where the run that reopens
      after the first crash ends. */
  lemma ScheduleEndsAtFirst(h: Hash, w: World, st: Storage, held: seq<FamilyIdentity>, left: seq<Storage>)
    requires Stage(h, w, st, held) && CatalogOk(w, st, held) && DistinctTables(held)
    requires Crashes(h, st, held, w.identified, left) && left != []
    ensures BothList(held, CatalogRows(st.registrations), st.registrations)
    ensures left[0].registrations == st.registrations && SameEnd(h, w, st, held, left[0])
    ensures LastLeft(st, left).registrations == st.registrations
    ensures Stage(h, w, LastLeft(st, left), CatalogRows(st.registrations))
    ensures Completed(h, st, held, w.identified, left).storage ==
              End(h, left[0], CatalogRows(st.registrations), w.identified).storage
  {
    var x := left[0];
    FirstCrash(h, w, st, held, x);
    ReopeningsEndAlike(h, w, x, left[1..]);
    LastLeftLater(st, left);
  }

  /** A schedule ends in exactly the state of the uninterrupted run: nothing
      crashed, or the engine already listed the inventory as a reopening does, or
      the plan's checkpoint was published before the first crash. */
  predicate EndsExactly(h: Hash, st: Storage, held: seq<FamilyIdentity>, left: seq<Storage>) {
    left == [] || held == CatalogRows(st.registrations) || Published(h, left[0])
  }

  lemma SameButInventoryRefl(a: Storage)
    ensures SameButInventory(a, a)
  {
  }

  /** Recovery is all or nothing under every crash schedule: however often a plan is
      cut short, wherever, the run that completes leaves the uninterrupted run's
      state, up to the order in which its checkpoint names the inventory, and leaves
      it exactly if and only if the condition above holds. */
  lemma EveryCrashScheduleEndsAlike(h: Hash, w: World, st: Storage, held: seq<FamilyIdentity>, left: seq<Storage>)
    requires Stage(h, w, st, held) && CatalogOk(w, st, held) && DistinctTables(held)
    requires Crashes(h, st, held, w.identified, left)
    ensures var done, whole :=
            Completed(h, st, held, w.identified, left).storage, End(h, st, held, w.identified).storage;
            && SameButInventory(whole, done)
            && (done == whole <==> EndsExactly(h, st, held, left))
  {
    if left == [] {
      SameButInventoryRefl(End(h, st, held, w.identified).storage);
    } else {
      ScheduleEndsAtFirst(h, w, st, held, left);
      RecoveryNeedsCatalogOrder(h, w, left[0], held, CatalogRows(st.registrations));
    }
  }

  /** What a compaction leaves of a store its plan was applied to: the plan's entries
      once, the slot clear, and then either history within budget and no intent, or,
      where a mirror must still acknowledge, everything retained and the intent at its
      last phase. */
  ghost predicate Concluded(applied: Storage, done: Storage)
    requires applied.policy.Some?
  {
    && OnlyEnds(applied, done) && done.slot.None?
    && if Releases(applied) then done.intent.None? && |done.versioned| <= applied.policy.value.maximumLive
       else done.intent.Some? && done.intent.value.phase.Checkpointed?
  }

  lemma EndConcludes(h: Hash, w: World, catalog: seq<FamilyIdentity>, applied: Storage, end: Resumed)
    requires applied.policy.Some? && end.storage.policy == applied.policy
    requires Ended(h, w, catalog, Releases(applied), end) && OnlyEnds(applied, end.storage)
    ensures Concluded(applied, end.storage)
  {
  }

  lemma ConcludedAlike(a: Storage, b: Storage, c: Storage)
    requires a.policy.Some? && Concluded(a, b) && SameButInventory(b, c)
    ensures Concluded(a, c)
  {
  }

  lemma ConcludedFrom(a: Storage, b: Storage, done: Storage)
    requires a.policy.Some? && b == a.(intent := b.intent) && Concluded(b, done)
    ensures Concluded(a, done)
  {
  }

  /** The undisturbed run of a parked plan concludes it. */
  lemma ParkedConcludes(h: Hash, w: World, st: Storage, held: seq<FamilyIdentity>, inventory: seq<FamilyIdentity>,
                        s: Session)
    requires Ready(h, w, st, held) && st.slot.None? && st.intent.None?
    requires SessionOk(h, w, st, inventory, s) && s.entries != [] && Collisionless(h, Shadow(st, s), held)
    ensures PlannedStage(h, w, ParkCompaction(st, Some(s), None).storage, held)
    ensures Shadow(st, s).policy == st.policy
    ensures Concluded(Shadow(st, s), End(h, ParkCompaction(st, Some(s), None).storage, held, w.identified).storage)
  {
    var parked := ParkCompaction(st, Some(s), None).storage;
    var end := End(h, parked, held, w.identified);
    ParkedIsPlanned(h, w, st, held, inventory, s);
    PlanCompletes(h, w, parked, held);
    AppendIgnoresIntent(st, s.entries, parked.slot, parked.intent);
    AppendMeaning(st, s.entries);
    EndConcludes(h, w, held, Applying(parked), end);
    ConcludedFrom(Shadow(st, s), Applying(parked), end.storage);
  }

  /** The whole compaction, local or mirrored: a parked plan concludes under any
      schedule of crashes and reopenings, in the state of the undisturbed run up to
      the order of the checkpoint's inventory. */
  lemma CompactionIsAllOrNothing(h: Hash, w: World, st: Storage, held: seq<FamilyIdentity>,
                                 inventory: seq<FamilyIdentity>, s: Session, left: seq<Storage>)
    requires Ready(h, w, st, held) && DistinctTables(held) && st.slot.None? && st.intent.None?
    requires SessionOk(h, w, st, inventory, s) && s.entries != [] && Collisionless(h, Shadow(st, s), held)
    requires Crashes(h, ParkCompaction(st, Some(s), None).storage, held, w.identified, left)
    ensures var parked := ParkCompaction(st, Some(s), None).storage;
            var done, whole :=
                Completed(h, parked, held, w.identified, left).storage, End(h, parked, held, w.identified).storage;
            && SameButInventory(whole, done)
            && (done == whole <==> EndsExactly(h, st, held, left))
            && Shadow(st, s).policy == st.policy && Concluded(Shadow(st, s), done)
  {
    var parked := ParkCompaction(st, Some(s), None).storage;
    ParkedConcludes(h, w, st, held, inventory, s);
    ParkKeepsRegistrations(st, s);
    PlanIsAllOrNothing(h, w, parked, held, left, Shadow(st, s));
  }

  lemma ParkKeepsRegistrations(st: Storage, s: Session)
    ensures ParkCompaction(st, Some(s), None).storage.registrations == st.registrations
  {
  }

  lemma PlanIsAllOrNothing(h: Hash, w: World, parked: Storage, held: seq<FamilyIdentity>, left: seq<Storage>,
                           applied: Storage)
    requires PlannedStage(h, w, parked, held) && DistinctTables(held)
    requires Crashes(h, parked, held, w.identified, left)
    requires applied.policy.Some? && Concluded(applied, End(h, parked, held, w.identified).storage)
    ensures var done, whole :=
            Completed(h, parked, held, w.identified, left).storage, End(h, parked, held, w.identified).storage;
            && SameButInventory(whole, done) && (done == whole <==> EndsExactly(h, parked, held, left))
            && Concluded(applied, done)
  {
    EveryCrashScheduleEndsAlike(h, w, parked, held, left);
    ConcludedAlike(applied, End(h, parked, held, w.identified).storage,
                   Completed(h, parked, held, w.identified, left).storage);
  }

  /** A plan that waits for its mirror finishes once the mirror acknowledges the last
      entry. */
  lemma ShippedPlanFinishes(h: Hash, w: World, st: Storage, catalog: seq<FamilyIdentity>, head: MirrorHead)
    requires CheckpointedStage(h, w, st, catalog) && !Releases(st)
    requires Acknowledge(st, head).result.Ok? && head.sequence == Sequence(st)
    ensures var st' := Acknowledge(st, head).storage;
            && CheckpointedStage(h, w, st', catalog)
            && Finished(h, w, catalog, End(h, st', catalog, w.identified))
  {
    var st' := Acknowledge(st, head).storage;
    assert st' == st.(cursor := Some(head));
    InvIgnoresCursor(h, w, st, catalog, Some(head));
    ViewIgnoresSlot(h, st, st.slot, st.intent, Some(head));
    assert st' == st.(slot := st.slot, intent := st.intent, cursor := Some(head));
    CheckpointedCompletes(h, w, st', catalog);
  }

  /** Wherever the last crash fell, a plain open refuses the store until a recovering
      open has brought it to the uninterrupted run's state, up to that order. Only a
      plan that must wait for its mirror makes that open report so. */
  lemma RecoveryServesTheSameStore(h: Hash, w: World, st: Storage, held: seq<FamilyIdentity>, left: seq<Storage>)
    requires Stage(h, w, st, held) && CatalogOk(w, st, held) && DistinctTables(held)
    requires Crashes(h, st, held, w.identified, left) && left != [] && LastLeft(st, left).intent.Some?
    ensures Open(LastLeft(st, left)) == Err(CompactionRecoveryRequired) && LastLeft(st, left).policy.Some?
    ensures var served := OpenRecovering(h, LastLeft(st, left), w.identified);
            && served.result == (if StageReleases(LastLeft(st, left)) then Ok(CatalogRows(st.registrations))
                                 else Err(Unacknowledged(served.storage)))
            && Open(served.storage).Ok? == StageReleases(LastLeft(st, left))
            && SameButInventory(End(h, st, held, w.identified).storage, served.storage)
            && (served.storage == End(h, st, held, w.identified).storage <==> EndsExactly(h, st, held, left))
  {
    ScheduleEndsAtFirst(h, w, st, held, left);
    EveryCrashScheduleEndsAlike(h, w, st, held, left);
    RecoveringOpens(h, w, LastLeft(st, left));
  }

  lemma RecoveringOpens(h: Hash, w: World, x: Storage)
    requires Stage(h, w, x, CatalogRows(x.registrations)) && x.intent.Some?
    ensures x.policy.Some?
    ensures var rows := CatalogRows(x.registrations);
            var served, end := OpenRecovering(h, x, w.identified), End(h, x, rows, w.identified).storage;
            && served.storage == end && Open(end).Ok? == StageReleases(x)
            && served.result == if StageReleases(x) then Ok(rows) else Err(Unacknowledged(end))
  {
    StageCompletes(h, w, x, CatalogRows(x.registrations));
    if StageReleases(x) { OpensAs(h, w, x); } else { OpenWaits(h, w, x); }
  }

  // ---- Every reachable system ----

  /** A local store ships nothing: its outbox is empty, so every acknowledgement is
      refused. */
  lemma LocalCursorStays(h: Hash, w: World, sys: System, step: Step)
    requires SystemOk(h, w, sys) && !Mirrored(sys.storage) && sys.storage.cursor.None?
    ensures Next(h, w, sys, step).storage.cursor.None?
  {
    if step.AcknowledgeMirror? {
      NothingToAcknowledge(sys.storage, step.head);
    } else {
      StepSteady(h, w, sys, step);
    }
  }

  lemma NothingToAcknowledge(st: Storage, head: MirrorHead)
    requires MirrorOk(st) && !Mirrored(st)
    ensures Acknowledge(st, head).storage == st
  {
  }

  /** A legal run under any policy stays ready to compact. */
  lemma {:induction false} RunIsReady(h: Hash, w: World, policy: Policy, steps: seq<Step>)
    requires AllLegal(h, w, Created(policy), steps)
    ensures var sys := After(h, w, Created(policy), steps);
            && SystemOk(h, w, sys) && sys.storage.policy == Some(policy)
            && Ready(h, w, sys.storage, sys.catalog) && DistinctTables(sys.catalog)
    decreases |steps|
  {
    CreatedOk(h, w, policy);
    RunAdvances(h, w, Created(policy), steps);
    if steps != [] && !policy.topology.Mirror? {
      var init := steps[..|steps| - 1];
      RunIsReady(h, w, policy, init);
      LocalCursorStays(h, w, After(h, w, Created(policy), init), steps[|steps| - 1]);
    }
    ReadySystem(h, w, After(h, w, Created(policy), steps));
  }

  lemma ReadySystem(h: Hash, w: World, sys: System)
    requires SystemOk(h, w, sys) && (!Mirrored(sys.storage) ==> sys.storage.cursor.None?)
    ensures Ready(h, w, sys.storage, sys.catalog) && DistinctTables(sys.catalog)
  {
  }

  /** A park that is accepted found nothing committed since the session was engaged. */
  lemma AcceptedParkIsCurrent(h: Hash, w: World, sys: System)
    requires SystemOk(h, w, sys) && ParkCompaction(sys.storage, SessionOf(sys), None).result == Ok(true)
    ensures sys.build.Some? && sys.storage.slot.None? && sys.storage.intent.None?
    ensures SessionOk(h, w, sys.storage, sys.build.value.inventory, sys.build.value.session)
    ensures sys.build.value.session.entries != []
  {
  }

  /** What every schedule of crashes makes of a plan this system parks. */
  ghost predicate AllOrNothing(h: Hash, w: World, sys: System, left: seq<Storage>)
    requires sys.build.Some? && sys.storage.policy.Some?
  {
    var applied := Shadow(sys.storage, sys.build.value.session);
    var parked := ParkCompaction(sys.storage, SessionOf(sys), None).storage;
    var done := Completed(h, parked, sys.catalog, w.identified, left).storage;
    var whole := End(h, parked, sys.catalog, w.identified).storage;
    && SameButInventory(whole, done)
    && (done == whole <==> EndsExactly(h, sys.storage, sys.catalog, left))
    && applied.policy == sys.storage.policy && Concluded(applied, done)
  }

  /** ... so every plan a legal run parks is all or nothing, whatever the run did
      before, under every schedule of crashes and reopenings after. */
  lemma ReachableCompactionIsAllOrNothing(h: Hash, w: World, policy: Policy, steps: seq<Step>, left: seq<Storage>)
    requires AllLegal(h, w, Created(policy), steps)
    requires var sys := After(h, w, Created(policy), steps);
             var parked := ParkCompaction(sys.storage, SessionOf(sys), None);
             && parked.result == Ok(true)
             && Collisionless(h, Shadow(sys.storage, SessionOf(sys).value), sys.catalog)
             && Crashes(h, parked.storage, sys.catalog, w.identified, left)
    ensures var sys := After(h, w, Created(policy), steps);
            sys.build.Some? && sys.storage.policy == Some(policy) && AllOrNothing(h, w, sys, left)
  {
    RunIsReady(h, w, policy, steps);
    SystemCompacts(h, w, After(h, w, Created(policy), steps), left);
  }

  lemma SystemCompacts(h: Hash, w: World, sys: System, left: seq<Storage>)
    requires SystemOk(h, w, sys) && Ready(h, w, sys.storage, sys.catalog) && DistinctTables(sys.catalog)
    requires var parked := ParkCompaction(sys.storage, SessionOf(sys), None);
             && parked.result == Ok(true)
             && Collisionless(h, Shadow(sys.storage, SessionOf(sys).value), sys.catalog)
             && Crashes(h, parked.storage, sys.catalog, w.identified, left)
    ensures sys.build.Some? && AllOrNothing(h, w, sys, left)
  {
    AcceptedParkIsCurrent(h, w, sys);
    var b := sys.build.value;
    CompactionIsAllOrNothing(h, w, sys.storage, sys.catalog, b.inventory, b.session, left);
  }
}
