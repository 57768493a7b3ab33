// Opening a store that may hold a pending compaction: what a recovering open leaves,
// and exactly when it refuses.
module Openings {
  import opened ByteStrings
  import opened Errors
  import opened Versioning
  import opened CanonicalViews
  import opened Checkpoints
  import opened Catalogs
  import opened Stores
  import opened Invariants
  import opened Histories
  import opened Retention
  import opened Writes
  import opened Rebuilding
  import opened Staging
  import opened StagingLaws
  import opened StagingSafety
  import opened Recovery
  import opened Ledgers
  import opened Lifetimes
  import opened Runs

  // ---- The configured compaction of any sound store ----

  /** A checkpoint that covers the whole log is there, or can be cut. */
  lemma CoverNow(h: Hash, w: World, st: Storage, catalog: seq<FamilyIdentity>)
    requires Inv(h, w, st, catalog) && st.policy.Some? && Complete(st) && st.versioned != []
    requires CoverClear(h, st, catalog, Sequence(st))
    ensures var out := EnsureCovering(h, st, catalog, Sequence(st));
            && out.result.Ok? && out.result.value.metadata.last == Sequence(st)
            && OnlyCheckpoints(st, out.storage) && Inv(h, w, out.storage, catalog)
            && LatestCheckpoint(h, out.storage) == Ok(Some(out.result.value))
  {
    var latest := LatestCheckpoint(h, st).value;
    CoveringPreserves(h, w, st, catalog, Sequence(st));
    CoveringMovesCheckpoints(h, st, catalog, Sequence(st));
    if CoveredAt(h, st, Sequence(st)) {
      AlreadyCovers(h, st, catalog, latest, Sequence(st));
    } else {
      CutsToCover(h, st, catalog, latest, Sequence(st));
      Uncovered(st, latest);
      FreshCovering(h, w, st, catalog, latest, Sequence(st));
    }
  }

  lemma Uncovered(st: Storage, latest: Option<Checkpoint>)
    requires CoversOk(st, latest) && Complete(st) && st.versioned != []
    requires !(latest.Some? && latest.value.metadata.last >= Sequence(st))
    ensures BaseOf(latest).after < Sequence(st)
  {
  }

  lemma ConfiguredIs(h: Hash, st: Storage, catalog: seq<FamilyIdentity>, covering: Outcome<Checkpoint>,
                     ack: Acknowledgement)
    requires st.policy.Some? && |st.versioned| > st.policy.value.maximumLive
    requires ConfiguredAcknowledgement(st, Sequence(st)) == Ok(ack) && ValidateAcknowledgement(st, ack).Ok?
    requires covering == EnsureCovering(h, st, catalog, Sequence(st))
    ensures CompactConfigured(h, st, catalog, Sequence(st)).storage ==
              TrimOver(h, covering, |st.versioned|, ack).storage
    ensures CompactConfigured(h, st, catalog, Sequence(st)).result.Ok? ==
            TrimOver(h, covering, |st.versioned|, ack).result.Ok?
  {
  }

  /** Trimming the whole log, or keeping all of it. */
  lemma TrimsAll(h: Hash, w: World, covering: Outcome<Checkpoint>, catalog: seq<FamilyIdentity>, before: nat,
                 ack: Acknowledgement)
    requires Inv(h, w, covering.storage, catalog) && covering.result.Ok?
    requires LatestCheckpoint(h, covering.storage) == Ok(Some(covering.result.value))
    requires covering.result.value.metadata.last == Sequence(covering.storage)
    ensures var out, st := TrimOver(h, covering, before, ack), covering.storage;
            && (out.result.Ok? <==> MirrorCovers(st, ack, Sequence(st)).Ok?)
            && (if out.result.Ok? then out.storage.versioned == [] else out.storage == st)
  {
    TrimPreserves(h, w, covering.storage, catalog);
  }

  /** Compaction to the store's own budget succeeds if and only if the store releases
      its log; then at most the budget stays, and otherwise all of it. */
  lemma ConfiguredVerdict(h: Hash, w: World, st: Storage, catalog: seq<FamilyIdentity>)
    requires Inv(h, w, st, catalog) && MirrorOk(st) && st.policy.Some? && Complete(st)
    requires MaintainClear(h, st, catalog, Sequence(st))
    ensures var out := CompactConfigured(h, st, catalog, Sequence(st));
            && (out.result.Ok? <==> Releases(st))
            && (out.result.Ok? ==> |out.storage.versioned| <= st.policy.value.maximumLive)
            && (out.result.Err? ==> OnlyCheckpoints(st, out.storage))
            && (|st.versioned| <= st.policy.value.maximumLive ==> out.storage == st)
  {
    if |st.versioned| > st.policy.value.maximumLive {
      ConfiguredIsValid(h, st, catalog, Sequence(st));
      if ConfiguredAcknowledgement(st, Sequence(st)).Ok? {
        var ack, covering :=
            ConfiguredAcknowledgement(st, Sequence(st)).value, EnsureCovering(h, st, catalog, Sequence(st));
        CoverNow(h, w, st, catalog);
        AcknowledgesAll(st, covering.storage, ack);
        ConfiguredIs(h, st, catalog, covering, ack);
        TrimsAll(h, w, covering, catalog, |st.versioned|, ack);
      } else {
        RefusedAtOnce(h, st, catalog);
      }
    }
  }

  lemma RefusedAtOnce(h: Hash, st: Storage, catalog: seq<FamilyIdentity>)
    requires st.policy.Some? && |st.versioned| > st.policy.value.maximumLive
    requires ConfiguredAcknowledgement(st, Sequence(st)).Err?
    ensures CompactConfigured(h, st, catalog, Sequence(st)) ==
              Outcome(Err(ConfiguredAcknowledgement(st, Sequence(st)).error), st)
  {
  }

  lemma AcknowledgesAll(st: Storage, covering: Storage, ack: Acknowledgement)
    requires MirrorOk(st) && st.policy.Some? && |st.versioned| > st.policy.value.maximumLive
    requires ConfiguredAcknowledgement(st, Sequence(st)) == Ok(ack) && OnlyCheckpoints(st, covering)
    ensures ValidateAcknowledgement(st, ack).Ok?
    ensures MirrorCovers(covering, ack, Sequence(covering)).Ok? <==> Releases(st)
  {
    if Mirrored(st) {
      MirrorAcknowledges(st, covering, Sequence(st), Sequence(st));
    } else {
      LocalAcknowledges(st, covering, Sequence(st), Sequence(st));
    }
  }

  // ---- Each phase of a pending compaction ----

  /** The group the store parks is still the one that comes next. */
  predicate InPlace(st: Storage) {
    st.slot.Some? && st.slot.value.entries != [] && st.slot.value.entries[0].sequence == Sequence(st) + 1
  }

  lemma PlannedVerdict(h: Hash, w: World, sys: System)
    requires SystemOk(h, w, sys) && sys.build.None? && Planning(sys.storage)
    ensures var st, p := sys.storage, RunPhase(h, sys.storage, sys.catalog, w.identified, None, None);
            if InPlace(st)
            then p.more == Ok(true) && p.fault.None?
                 && p.storage == Applying(st).(intent := Some(Intent(Applied, Some(Sequence(Applying(st))))))
            else p.more.Err? && p.storage == st
  {
    var st := sys.storage;
    if InPlace(st) {
      InPlaceMaterializes(h, w, sys, st.slot.value);
      MaterializeIsAppend(h, w, st, st.slot.value);
      PlanApplies(h, st, w.identified, false);
    } else if st.slot.Some? {
      MovedStoreRefusesGroup(h, st, w.identified, st.slot.value);
    }
  }

  /** A plan is covered if and only if it names an entry the store holds. */
  lemma CoverVerdict(h: Hash, w: World, st: Storage, catalog: seq<FamilyIdentity>, history: seq<Entry>, final: nat)
    requires Sound(h, w, st, catalog, history) && CoverClear(h, st, catalog, final)
    ensures var out := CoverPlan(h, st, catalog, final);
            (out.result.Ok? <==> final <= Sequence(st) && Sequence(st) > 0) && OnlyCheckpoints(st, out.storage)
  {
    var latest := LatestCheckpoint(h, st).value;
    LatestRow(h, st, latest);
    if latest.Some? && latest.value.metadata.last >= final {
      AlreadyCovered(h, st, catalog, latest.value, final);
    } else {
      UncoveredVerdict(h, w, st, catalog, latest, final);
    }
  }

  lemma AlreadyCovered(h: Hash, st: Storage, catalog: seq<FamilyIdentity>, latest: Checkpoint, final: nat)
    requires LatestCheckpoint(h, st) == Ok(Some(latest)) && latest.metadata.last >= final
    ensures CoverPlan(h, st, catalog, final) == Outcome(Ok(()), st)
  {
  }

  lemma UncoveredVerdict(h: Hash, w: World, st: Storage, catalog: seq<FamilyIdentity>, latest: Option<Checkpoint>,
                         final: nat)
    requires Inv(h, w, st, catalog) && st.policy.Some? && Complete(st) && Collisionless(h, st, catalog)
    requires LatestCheckpoint(h, st) == Ok(latest) && !(latest.Some? && latest.value.metadata.last >= final)
    requires latest.Some? ==> 1 <= latest.value.metadata.last
    ensures var out := CoverPlan(h, st, catalog, final);
            (out.result.Ok? <==> final <= Sequence(st) && Sequence(st) > 0) && OnlyCheckpoints(st, out.storage)
  {
    UncoveredIs(h, st, catalog, latest, WriteCheckpoint(h, st, catalog), final);
    WriteMovesCheckpoints(h, st, catalog);
    CutVerdict(h, w, st, catalog, latest, final);
  }

  lemma CutVerdict(h: Hash, w: World, st: Storage, catalog: seq<FamilyIdentity>, latest: Option<Checkpoint>,
                   final: nat)
    requires Inv(h, w, st, catalog) && st.policy.Some? && Complete(st) && Collisionless(h, st, catalog)
    requires LatestCheckpoint(h, st) == Ok(latest) && !(latest.Some? && latest.value.metadata.last >= final)
    requires latest.Some? ==> 1 <= latest.value.metadata.last
    ensures var out := PublishedCovers(h, st, WriteCheckpoint(h, st, catalog), final);
            (out.result.Ok? <==> final <= Sequence(st) && Sequence(st) > 0)
  {
    if BaseOf(latest).after < Sequence(st) {
      CutPublishes(h, w, st, catalog, latest, final);
    } else {
      NothingToPublish(h, st, catalog, latest, final);
    }
  }

  lemma CutPublishes(h: Hash, w: World, st: Storage, catalog: seq<FamilyIdentity>, latest: Option<Checkpoint>,
                     final: nat)
    requires Inv(h, w, st, catalog) && st.policy.Some? && Complete(st) && Collisionless(h, st, catalog)
    requires LatestCheckpoint(h, st) == Ok(latest) && BaseOf(latest).after < Sequence(st)
    ensures PublishedCovers(h, st, WriteCheckpoint(h, st, catalog), final).result.Ok? <==> final <= Sequence(st)
  {
    FreshCut(h, w, st, catalog, latest);
    WriteIs(h, st, catalog, CutCheckpoint(h, st, catalog).value);
    PublishedReads(h, st, WriteCheckpoint(h, st, catalog), CutCheckpoint(h, st, catalog).value, final);
  }

  lemma NothingToPublish(h: Hash, st: Storage, catalog: seq<FamilyIdentity>, latest: Option<Checkpoint>, final: nat)
    requires Sequenced(st) && st.policy.Some? && Complete(st)
    requires LatestCheckpoint(h, st) == Ok(latest) && BaseOf(latest).after == Sequence(st)
    ensures PublishedCovers(h, st, WriteCheckpoint(h, st, catalog), final).result.Err?
  {
    CutsNothing(h, st, catalog, latest);
    NothingPublished(h, st, WriteCheckpoint(h, st, catalog), final);
  }

  lemma CutsNothing(h: Hash, st: Storage, catalog: seq<FamilyIdentity>, latest: Option<Checkpoint>)
    requires Sequenced(st) && st.policy.Some? && Complete(st)
    requires LatestCheckpoint(h, st) == Ok(latest) && BaseOf(latest).after == Sequence(st)
    ensures WriteCheckpoint(h, st, catalog).Err?
  {
    CutIs(h, st, catalog, latest);
    NothingFollows(st);
    NothingPast(h, st, catalog, latest);
    RefusedCutWritesNothing(h, st, catalog);
  }

  lemma NothingFollows(st: Storage)
    requires Sequenced(st)
    ensures EntriesFrom(st.versioned, Sequence(st) + 1) == []
  {
    SuffixReachesCursor(st, 0);
  }

  lemma RefusedCutWritesNothing(h: Hash, st: Storage, catalog: seq<FamilyIdentity>)
    requires CutCheckpoint(h, st, catalog).Err?
    ensures WriteCheckpoint(h, st, catalog).Err?
  {
  }

  lemma PublishedReads(h: Hash, st: Storage, written: Result<Storage>, k: Checkpoint, final: nat)
    requires written.Ok? && LatestCheckpoint(h, written.value) == Ok(Some(k))
    ensures PublishedCovers(h, st, written, final).result.Ok? <==> final <= k.metadata.last
  {
  }

  lemma NothingPublished(h: Hash, st: Storage, written: Result<Storage>, final: nat)
    requires written.Err?
    ensures PublishedCovers(h, st, written, final).result.Err?
  {
  }

  lemma AppliedVerdict(h: Hash, w: World, sys: System, final: Option<nat>)
    requires SystemOk(h, w, sys) && sys.storage.intent == Some(Intent(Applied, final))
    requires PhaseClear(h, sys.storage, sys.catalog, None)
    ensures var st, p := sys.storage, RunPhase(h, sys.storage, sys.catalog, w.identified, None, None);
            && p.fault.None?
            && (if final.Some? && final.value <= Sequence(st) && Sequence(st) > 0
                then p.more == Ok(true) && p.storage.intent == Some(Intent(Checkpointed, final))
                else p.more.Err? && p.storage.intent == st.intent)
            && OnlyCheckpoints(st.(intent := p.storage.intent), p.storage)
  {
    if final.Some? { CoverVerdict(h, w, sys.storage, sys.catalog, sys.history, final.value); }
  }

  lemma CheckpointedVerdict(h: Hash, w: World, sys: System)
    requires SystemOk(h, w, sys) && sys.storage.intent.Some? && sys.storage.intent.value.phase.Checkpointed?
    requires PhaseClear(h, sys.storage, sys.catalog, None)
    ensures var st, p := sys.storage, RunPhase(h, sys.storage, sys.catalog, w.identified, None, None);
            && (if Releases(st) then p.more == Ok(false) && p.storage.intent.None?
                                     && |p.storage.versioned| <= st.policy.value.maximumLive
                else p.more.Err? && OnlyCheckpoints(st, p.storage))
            && OnlyHistory(st.(intent := p.storage.intent), p.storage)
  {
    var st := sys.storage;
    ConfiguredVerdict(h, w, st, sys.catalog);
    MaintainMovesHistory(h, st, sys.catalog, Sequence(st));
    MaintainIs(h, st, sys.catalog, Sequence(st));
    CheckpointedPhase(h, st, sys.catalog, w.identified);
  }

  // ---- The whole resume ----

  /** What decides whether a store can be opened for recovery. */
  predicate Recoverable(st: Storage)
    requires st.policy.Some?
  {
    match st.intent
    case None => Releases(st)
    case Some(Intent(Planned, _)) => InPlace(st) && (AppendMeaning(st, st.slot.value.entries); Releases(Applying(st)))
    case Some(Intent(Applied, final)) =>
      final.Some? && final.value <= Sequence(st) && Sequence(st) > 0 && Releases(st)
    case Some(Intent(Checkpointed, _)) => Releases(st)
  }

  /** What the store holds once its pending plan is applied, if it can be. */
  function Resolved(st: Storage): Storage { if Planning(st) && InPlace(st) then Applying(st) else st }

  /** A resume that had something to do: the intent is gone and the log within budget,
      or the intent stands and nothing has left the log. */
  ghost predicate ResumedAs(st: Storage, out: Resumed) {
    && OnlyHistory(Resolved(st).(intent := out.storage.intent), out.storage) && out.storage.policy.Some?
    && if out.result.Ok?
       then out.storage.intent.None? && |out.storage.versioned| <= out.storage.policy.value.maximumLive
       else out.storage.intent.Some? && OnlyCheckpoints(Resolved(st).(intent := out.storage.intent), out.storage)
  }

  lemma ResumeIs(h: Hash, st: Storage, catalog: seq<FamilyIdentity>, directory: Directory)
    ensures var p := RunPhase(h, st, catalog, directory, None, None);
            && (p.more == Ok(true) && p.fault.None? ==>
                  Resume(h, st, catalog, directory, None, None).result ==
                    Resume(h, p.storage, catalog, directory, None, None).result
                  && Resume(h, st, catalog, directory, None, None).storage ==
                       Resume(h, p.storage, catalog, directory, None, None).storage)
            && (p.more != Ok(true) ==>
                  Resume(h, st, catalog, directory, None, None).storage == p.storage
                  && Resume(h, st, catalog, directory, None, None).result.Ok? == p.more.Ok?)
  {
  }

  /** The phase moved only checkpoints, so what is left to do is what was. */
  lemma StillReleases(a: Storage, b: Storage)
    requires OnlyCheckpoints(a.(intent := b.intent), b) && a.policy.Some?
    ensures Releases(a) <==> Releases(b)
  {
  }

  ghost predicate ResumeDecided(h: Hash, w: World, sys: System) {
    var out := Resume(h, sys.storage, sys.catalog, w.identified, None, None);
    sys.storage.policy.Some? && (out.result.Ok? <==> Recoverable(sys.storage)) && ResumedAs(sys.storage, out)
  }

  ghost predicate Resumable(h: Hash, w: World, sys: System) {
    SystemOk(h, w, sys) && sys.build.None? && ResumeClear(h, sys.storage, sys.catalog, w.identified, None, None)
  }

  lemma NextResumable(h: Hash, w: World, sys: System)
    requires Resumable(h, w, sys)
    requires RunPhase(h, sys.storage, sys.catalog, w.identified, None, None).more == Ok(true)
    ensures Resumable(h, w, AfterPhase(h, w, sys, None))
    ensures AfterPhase(h, w, sys, None).storage ==
              RunPhase(h, sys.storage, sys.catalog, w.identified, None, None).storage
  {
    PhaseOk(h, w, sys, None);
    PhaseDescends(h, sys.storage, sys.catalog, w.identified, None, None);
    PhaseKeepsFault(h, sys.storage, sys.catalog, w.identified);
  }

  lemma ResumeCheckpointed(h: Hash, w: World, sys: System)
    requires Resumable(h, w, sys) && sys.storage.intent.Some? && sys.storage.intent.value.phase.Checkpointed?
    ensures ResumeDecided(h, w, sys)
  {
    ResumeIs(h, sys.storage, sys.catalog, w.identified);
    CheckpointedVerdict(h, w, sys);
  }

  lemma ResumeApplied(h: Hash, w: World, sys: System)
    requires Resumable(h, w, sys) && sys.storage.intent.Some? && sys.storage.intent.value.phase.Applied?
    ensures ResumeDecided(h, w, sys)
  {
    var st := sys.storage;
    var p := RunPhase(h, st, sys.catalog, w.identified, None, None);
    ResumeIs(h, st, sys.catalog, w.identified);
    AppliedVerdict(h, w, sys, st.intent.value.finalSequence);
    if p.more.Ok? {
      NextResumable(h, w, sys);
      StillReleases(st, p.storage);
      ResumeCheckpointed(h, w, AfterPhase(h, w, sys, None));
      ResumedThrough(st, p.storage, Resume(h, p.storage, sys.catalog, w.identified, None, None));
    }
  }

  lemma ResumePlanned(h: Hash, w: World, sys: System)
    requires Resumable(h, w, sys) && Planning(sys.storage)
    ensures ResumeDecided(h, w, sys)
  {
    var st := sys.storage;
    ResumeIs(h, st, sys.catalog, w.identified);
    PlannedVerdict(h, w, sys);
    if InPlace(st) {
      AppendMeaning(st, st.slot.value.entries);
      GroupCursor(h, st, st.slot.value.entries);
      NextResumable(h, w, sys);
      ResumeApplied(h, w, AfterPhase(h, w, sys, None));
      PlannedThrough(st, RunPhase(h, st, sys.catalog, w.identified, None, None).storage,
                     Resume(h, RunPhase(h, st, sys.catalog, w.identified, None, None).storage, sys.catalog,
                            w.identified, None, None));
    }
  }

  lemma PlannedThrough(st: Storage, applied: Storage, out: Resumed)
    requires Planning(st) && InPlace(st) && st.policy.Some? && Sequence(Applying(st)) > 0
    requires applied == Applying(st).(intent := Some(Intent(Applied, Some(Sequence(Applying(st))))))
    requires ResumedAs(applied, out)
    ensures ResumedAs(st, out)
    ensures Applying(st).policy.Some? && applied.policy.Some?
    ensures Recoverable(applied) <==> Recoverable(st)
  {
    AppendMeaning(st, st.slot.value.entries);
  }

  lemma ResumeVerdict(h: Hash, w: World, sys: System)
    requires Resumable(h, w, sys) && sys.storage.intent.Some?
    ensures ResumeDecided(h, w, sys)
  {
    match sys.storage.intent.value.phase {
      case Planned => ResumePlanned(h, w, sys);
      case Applied => ResumeApplied(h, w, sys);
      case Checkpointed => ResumeCheckpointed(h, w, sys);
    }
  }

  lemma ResumedThrough(a: Storage, b: Storage, out: Resumed)
    requires !Planning(a) && !Planning(b) && OnlyCheckpoints(a.(intent := b.intent), b) && ResumedAs(b, out)
    ensures OnlyHistory(a.(intent := out.storage.intent), out.storage)
    ensures out.result.Err? ==> OnlyCheckpoints(a.(intent := out.storage.intent), out.storage)
  {
  }

  // ---- The recovering open ----

  /** No checkpoint the open cuts collides. */
  ghost predicate OpenClear(h: Hash, w: World, st: Storage) {
    var catalog := CatalogRows(st.registrations);
    if st.intent.None? then MaintainClear(h, st, catalog, Sequence(st))
    else ResumeClear(h, st, catalog, w.identified, None, None)
  }

  lemma OpenIs(h: Hash, st: Storage, directory: Directory, resumed: Resumed)
    requires resumed == Resume(h, st, CatalogRows(st.registrations), directory, None, None)
    ensures var catalog, out := CatalogRows(st.registrations), OpenRecovering(h, st, directory);
            if resumed.result.Err? then out == Outcome(Err(resumed.result.error), resumed.storage)
            else if resumed.storage.policy.None? then out == Outcome(Ok(catalog), resumed.storage)
            else
              var compacted := CompactConfigured(h, resumed.storage, catalog, Sequence(resumed.storage));
              out.storage == compacted.storage && out.result.Ok? == compacted.result.Ok?
                  && (out.result.Ok? ==> out.result == Ok(catalog))
  {
  }

  /** Nothing to do within the budget. */
  lemma WithinBudget(h: Hash, w: World, st: Storage, catalog: seq<FamilyIdentity>)
    requires Inv(h, w, st, catalog) && st.policy.Some? && |st.versioned| <= st.policy.value.maximumLive
    ensures var out := CompactConfigured(h, st, catalog, Sequence(st)); out.result.Ok? && out.storage == st
  {
  }

  /** What a recovering open leaves of a store: served with no intent, and no more log
      than the budget; or refused with everything still logged. Either way it moved
      only history, past what a plan in place applied. */
  ghost predicate Opened(st: Storage, out: Outcome<seq<FamilyIdentity>>) {
    && OnlyHistory(Resolved(st).(intent := out.storage.intent), out.storage) && out.storage.policy.Some?
    && (out.result.Ok? ==>
          out.result == Ok(CatalogRows(st.registrations)) && out.storage.intent.None?
          && |out.storage.versioned| <= out.storage.policy.value.maximumLive)
    && (out.result.Err? ==> OnlyCheckpoints(Resolved(st).(intent := out.storage.intent), out.storage))
    && (out.result.Err? ==> out.storage.intent.Some? == st.intent.Some?)
  }

  /** The system a recovering open leaves. */
  function OpenedSystem(h: Hash, w: World, sys: System): System {
    System(OpenRecovering(h, sys.storage, w.identified).storage, CatalogRows(sys.storage.registrations), None,
           sys.history + Landed(sys.storage, Planning(sys.storage) && InPlace(sys.storage)))
  }

  /** A recovering open succeeds if and only if the store is recoverable: with no
      intent, with a plan in place, or with one applied, the log must be within its
      budget, or the store local, or everything acknowledged by its mirror. Accepted,
      it leaves no intent and no more log than the budget; refused, it releases
      nothing; and the run invariant holds of what it leaves, with the plan's entries
      in the history exactly if they were in place. */
  lemma OpenVerdict(h: Hash, w: World, sys: System)
    requires SystemOk(h, w, sys) && OpenClear(h, w, sys.storage)
    ensures sys.storage.policy.Some?
    ensures var out := OpenRecovering(h, sys.storage, w.identified);
            (out.result.Ok? <==> Recoverable(sys.storage)) && Opened(sys.storage, out)
    ensures SystemOk(h, w, OpenedSystem(h, w, sys))
  {
    var again := Reopened(sys);
    ReopenOk(h, w, sys);
    var resumed := Resume(h, again.storage, again.catalog, w.identified, None, None);
    OpenIs(h, sys.storage, w.identified, resumed);
    if sys.storage.intent.None? {
      QuietOpens(h, w, again);
    } else {
      ResumeOk(h, w, again, None);
      ResumeVerdict(h, w, again);
      ResumeLands(h, w, again);
      if resumed.result.Ok? { WithinBudget(h, w, resumed.storage, again.catalog); }
    }
  }

  /** With no intent the open is the configured compaction. */
  lemma QuietIs(h: Hash, st: Storage, directory: Directory)
    requires st.intent.None? && st.policy.Some?
    ensures var catalog, out := CatalogRows(st.registrations), OpenRecovering(h, st, directory);
            var compacted := CompactConfigured(h, st, catalog, Sequence(st));
            && out.storage == compacted.storage && out.result.Ok? == compacted.result.Ok?
            && (out.result.Ok? ==> out.result == Ok(catalog))
  {
    OpenIs(h, st, directory, Resume(h, st, CatalogRows(st.registrations), directory, None, None));
  }

  lemma QuietOpens(h: Hash, w: World, sys: System)
    requires SystemOk(h, w, sys) && sys.storage.intent.None? && sys.build.None?
    requires sys.catalog == CatalogRows(sys.storage.registrations)
    requires MaintainClear(h, sys.storage, sys.catalog, Sequence(sys.storage))
    ensures var out := OpenRecovering(h, sys.storage, w.identified);
            (out.result.Ok? <==> Recoverable(sys.storage)) && Opened(sys.storage, out)
    ensures SystemOk(h, w, OpenedSystem(h, w, sys))
  {
    var st := sys.storage;
    QuietIs(h, st, w.identified);
    ConfiguredVerdict(h, w, st, sys.catalog);
    MaintainIs(h, st, sys.catalog, Sequence(st));
    MaintainMovesHistory(h, st, sys.catalog, Sequence(st));
    QuietSystem(h, w, sys);
  }

  lemma QuietSystem(h: Hash, w: World, sys: System)
    requires SystemOk(h, w, sys) && sys.storage.intent.None? && sys.build.None?
    requires sys.catalog == CatalogRows(sys.storage.registrations)
    requires MaintainClear(h, sys.storage, sys.catalog, Sequence(sys.storage))
    ensures SystemOk(h, w, OpenedSystem(h, w, sys))
  {
    QuietIs(h, sys.storage, w.identified);
    MaintainOk(h, w, sys, Sequence(sys.storage));
    MaintainIs(h, sys.storage, sys.catalog, Sequence(sys.storage));
    Nothing(sys.history);
  }

  lemma ResumeLands(h: Hash, w: World, sys: System)
    requires SystemOk(h, w, sys) && sys.build.None?
    ensures ResumeStep(h, w, sys, None) ==
              System(Resume(h, sys.storage, sys.catalog, w.identified, None, None).storage, sys.catalog, None,
                     sys.history + Landed(sys.storage, Planning(sys.storage) && InPlace(sys.storage)))
  {
    var st := sys.storage;
    if Planning(st) {
      PlannedVerdict(h, w, sys);
      if InPlace(st) { InPlaceMaterializes(h, w, sys, st.slot.value); }
    }
  }

  /** What an opened store serves: the rows its history folds to, which its tables hold. */
  ghost predicate Serves(h: Hash, w: World, st: Storage, history: seq<Entry>) {
    var whole, view := Fold(h, [], history, None), CurrentView(h, st);
    && whole.Ok? && view.Ok? && view.value.rows == whole.value.rows
    && Agrees(w, st.tables, whole.value.rows, st.registrations)
  }

  lemma SystemServes(h: Hash, w: World, sys: System)
    requires SystemOk(h, w, sys)
    ensures Serves(h, w, sys.storage, sys.history)
  {
    WholeHistoryIsTheView(h, w, sys.storage, sys.catalog, sys.history);
  }

  /** ... of every store a legal run reaches. Served or refused, it holds the rows of
      its history, which is the one before but for the entries of a plan in place; so
      without one the view is what it was. */
  lemma ReachableOpens(h: Hash, w: World, policy: Policy, steps: seq<Step>)
    requires AllLegal(h, w, Created(policy), steps)
    requires OpenClear(h, w, After(h, w, Created(policy), steps).storage)
    ensures var st, history := After(h, w, Created(policy), steps).storage, After(h, w, Created(policy), steps).history;
            var out, landed := OpenRecovering(h, st, w.identified), Landed(st, Planning(st) && InPlace(st));
            && st.policy.Some? && (out.result.Ok? <==> Recoverable(st)) && Opened(st, out)
            && Serves(h, w, out.storage, history + landed)
            && (!(Planning(st) && InPlace(st)) ==> Serves(h, w, st, history + landed))
  {
    var sys := After(h, w, Created(policy), steps);
    CreatedOk(h, w, policy);
    RunOk(h, w, Created(policy), steps);
    OpenVerdict(h, w, sys);
    SystemServes(h, w, OpenedSystem(h, w, sys));
    SystemServes(h, w, sys);
    Nothing(sys.history);
  }
}
