// Exactly when staging a sequence of calls is making them directly: retention is the
// one thing a direct call does that a staged one cannot.
module StagingExactness {
  import opened ByteStrings
  import opened Errors
  import opened Versioning
  import opened CanonicalViews
  import opened Checkpoints
  import opened Catalogs
  import opened Stores
  import opened Invariants
  import opened Histories
  import opened Retention
  import opened Writes
  import opened Rebuilding
  import opened Staging
  import opened StagingLaws

  // ---- A commit never gives back what maintenance dropped ----

  lemma DirectDrops(h: Hash, st: Storage, catalog: seq<FamilyIdentity>, call: Call)
    requires st.policy.Some?
    ensures var st' := Direct(h, st, catalog, call).storage; Dropped(st') == Dropped(st) && st'.policy == st.policy
  {
  }

  lemma PerformDrops(h: Hash, st: Storage, catalog: seq<FamilyIdentity>, call: Call)
    requires st.policy.Some?
    ensures var st' := Perform(h, st, catalog, call).storage; Dropped(st') >= Dropped(st) && st'.policy == st.policy
  {
    var done := Direct(h, st, catalog, call);
    DirectDrops(h, st, catalog, call);
    MaintainDrops(h, done.storage, catalog, Sequence(done.storage));
  }

  // ---- A compaction that succeeds drops the whole log ----

  /** What a covering checkpoint of the last commit covers. */
  lemma CoveringReaches(h: Hash, st: Storage, catalog: seq<FamilyIdentity>)
    requires Sequenced(st) && EnsureCovering(h, st, catalog, Sequence(st)).result.Ok?
    ensures EnsureCovering(h, st, catalog, Sequence(st)).result.value.metadata.last >= Sequence(st)
  {
    var latest := LatestCheckpoint(h, st).value;
    var after := BaseOf(latest).after;
    SuffixEnds(st, after);
    CoveringOver(h, st, catalog, latest, EntriesFrom(st.versioned, after + 1),
                 EnsureCovering(h, st, catalog, Sequence(st)));
  }

  lemma CoveringOver(h: Hash, st: Storage, catalog: seq<FamilyIdentity>, latest: Option<Checkpoint>,
                     entries: seq<Entry>, out: Outcome<Checkpoint>)
    requires LatestCheckpoint(h, st) == Ok(latest) && out == EnsureCovering(h, st, catalog, Sequence(st))
    requires entries == EntriesFrom(st.versioned, BaseOf(latest).after + 1)
    requires entries != [] ==> entries[|entries| - 1].sequence == Sequence(st)
    ensures out.result.Ok? ==> out.result.value.metadata.last >= Sequence(st)
  {
    if out.result.Ok? && (latest.None? || latest.value.metadata.last < Sequence(st)) {
      CoveringWrites(h, st, catalog, latest, WriteCheckpoint(h, st, catalog));
      NewCoverReaches(h, st, catalog, latest, entries, out);
    }
  }

  lemma NewCoverReaches(h: Hash, st: Storage, catalog: seq<FamilyIdentity>, latest: Option<Checkpoint>,
                        entries: seq<Entry>, out: Outcome<Checkpoint>)
    requires LatestCheckpoint(h, st) == Ok(latest) && CutCheckpoint(h, st, catalog).Ok?
    requires out == Reload(h, st, Ok(PutCheckpoint(h, st, CutCheckpoint(h, st, catalog).value))) && out.result.Ok?
    requires entries == EntriesFrom(st.versioned, BaseOf(latest).after + 1)
    requires entries != [] ==> entries[|entries| - 1].sequence == Sequence(st)
    ensures out.result.value.metadata.last == Sequence(st)
  {
    CutEndsAtCursor(h, st, catalog, latest, entries);
    ReloadsWritten(h, st, Ok(PutCheckpoint(h, st, CutCheckpoint(h, st, catalog).value)),
                   CutCheckpoint(h, st, catalog).value);
  }

  lemma CoveringWrites(h: Hash, st: Storage, catalog: seq<FamilyIdentity>, latest: Option<Checkpoint>,
                       written: Result<Storage>)
    requires LatestCheckpoint(h, st) == Ok(latest) && written == WriteCheckpoint(h, st, catalog)
    requires latest.None? || latest.value.metadata.last < Sequence(st)
    requires EnsureCovering(h, st, catalog, Sequence(st)).result.Ok?
    ensures EnsureCovering(h, st, catalog, Sequence(st)) == Reload(h, st, written)
    ensures CutCheckpoint(h, st, catalog).Ok?
    ensures written == Ok(PutCheckpoint(h, st, CutCheckpoint(h, st, catalog).value))
  {
  }

  lemma ReloadsWritten(h: Hash, st: Storage, written: Result<Storage>, k: Checkpoint)
    requires written == Ok(PutCheckpoint(h, st, k)) && Reload(h, st, written).result.Ok?
    ensures Reload(h, st, written).result.value.metadata == k.metadata
  {
    PutReloads(h, st, k);
  }

  lemma CutOverReaches(h: Hash, st: Storage, catalog: seq<FamilyIdentity>, latest: Option<Checkpoint>,
                       entries: seq<Entry>)
    requires st.policy.Some? && entries == EntriesFrom(st.versioned, BaseOf(latest).after + 1)
    requires entries != [] ==> entries[|entries| - 1].sequence == Sequence(st)
    ensures CutOver(h, st, catalog, latest).Ok? ==> CutOver(h, st, catalog, latest).value.metadata.last == Sequence(st)
  {
  }

  lemma SuffixEnds(st: Storage, after: nat)
    requires Sequenced(st)
    ensures var suffix := EntriesFrom(st.versioned, after + 1);
            suffix != [] ==> suffix[|suffix| - 1].sequence == Sequence(st)
  {
    SuffixReachesCursor(st, after);
  }

  lemma CutIsOver(h: Hash, st: Storage, catalog: seq<FamilyIdentity>, latest: Option<Checkpoint>)
    requires LatestCheckpoint(h, st) == Ok(latest) && CutCheckpoint(h, st, catalog).Ok?
    ensures st.policy.Some? && CutCheckpoint(h, st, catalog) == CutOver(h, st, catalog, latest)
  {
  }

  lemma CutEndsAtCursor(h: Hash, st: Storage, catalog: seq<FamilyIdentity>, latest: Option<Checkpoint>,
                        entries: seq<Entry>)
    requires LatestCheckpoint(h, st) == Ok(latest) && CutCheckpoint(h, st, catalog).Ok?
    requires entries == EntriesFrom(st.versioned, BaseOf(latest).after + 1)
    requires entries != [] ==> entries[|entries| - 1].sequence == Sequence(st)
    ensures CutCheckpoint(h, st, catalog).value.metadata.last == Sequence(st)
  {
    CutIsOver(h, st, catalog, latest);
    CutOverReaches(h, st, catalog, latest, entries);
  }

  /** A checkpoint read back is the one written, whatever became of its segments. */
  lemma PutReloads(h: Hash, st: Storage, k: Checkpoint)
    ensures var reloaded := LatestCheckpoint(h, PutCheckpoint(h, st, k));
            reloaded.Ok? ==> reloaded.value.Some? && reloaded.value.value.metadata == k.metadata
  {
  }

  lemma TrimEmpties(h: Hash, st: Storage, k: Checkpoint)
    requires Sequenced(st) && k.metadata.last >= Sequence(st)
    ensures Trim(h, st, k).versioned == []
  {
    FromConsecutive(st.versioned, EntryRowSequence, k.metadata.last + 1, Sequence(st));
  }

  lemma CompactEmpties(h: Hash, st: Storage, catalog: seq<FamilyIdentity>, maximum: nat, ack: Acknowledgement)
    requires Sequenced(st) && |st.versioned| > maximum
    ensures var out := CompactHistory(h, st, catalog, Sequence(st), maximum, ack);
            out.result.Ok? ==> out.storage.versioned == []
  {
    var covering := EnsureCovering(h, st, catalog, Sequence(st));
    CoveringMovesCheckpoints(h, st, catalog, Sequence(st));
    if covering.result.Ok? {
      CoveringReaches(h, st, catalog);
      TrimEmpties(h, covering.storage, covering.result.value);
    }
  }

  lemma MaintainEmpties(h: Hash, st: Storage, catalog: seq<FamilyIdentity>)
    requires Sequenced(st) && st.policy.Some? && |st.versioned| > st.policy.value.maximumLive
    ensures var out := Maintain(h, st, catalog, Sequence(st)); out.result.Ok? ==> Dropped(out.storage) > Dropped(st)
  {
    MaintainMovesHistory(h, st, catalog, Sequence(st));
    if ConfiguredAcknowledgement(st, Sequence(st)).Ok? {
      var ack := ConfiguredAcknowledgement(st, Sequence(st)).value;
      CompactEmpties(h, st, catalog, st.policy.value.maximumLive, ack);
    }
  }

  lemma TriggerShows(h: Hash, w: World, st: Storage, catalog: seq<FamilyIdentity>, call: Call)
    requires Inv(h, w, st, catalog) && st.policy.Some? && Disciplined(w, call) && Triggers(h, st, catalog, call)
    ensures Perform(h, st, catalog, call).result.Err? || Dropped(Perform(h, st, catalog, call).storage) > Dropped(st)
  {
    var done := Direct(h, st, catalog, call);
    DirectPreserves(h, w, st, catalog, call);
    DirectDrops(h, st, catalog, call);
    AcceptedGrows(h, st, catalog, call);
    MaintainEmpties(h, done.storage, catalog);
  }

  lemma AcceptedGrows(h: Hash, st: Storage, catalog: seq<FamilyIdentity>, call: Call)
    requires st.policy.Some? && Direct(h, st, catalog, call).result.Ok?
    ensures |Direct(h, st, catalog, call).storage.versioned| == |st.versioned| + 1
  {
  }

  // ---- Whole builds ----

  lemma {:induction false} BuildsOk(h: Hash, w: World, st: Storage, catalog: seq<FamilyIdentity>, calls: seq<Call>)
    requires CatalogOk(w, st, catalog) && st.policy.Some? && AllDisciplined(w, calls)
    ensures SessionOk(h, w, st, catalog, Built(h, st, catalog, Engage(h, st, catalog), calls).session)
  {
    EngagedOk(h, w, st, catalog);
    if calls != [] {
      var init := calls[..|calls| - 1];
      BuildsOk(h, w, st, catalog, init);
      StagedIsDirect(h, w, st, catalog, Built(h, st, catalog, Engage(h, st, catalog), init).session,
                     calls[|calls| - 1]);
    }
  }

  lemma ShadowDrops(h: Hash, w: World, st: Storage, catalog: seq<FamilyIdentity>, s: Session)
    requires SessionOk(h, w, st, catalog, s)
    ensures Dropped(Shadow(st, s)) == Dropped(st)
  {
    AppendMeaning(st, s.entries);
  }

  /** The direct run shows what no build can: a call failed in its maintenance that
      a build accepts, or entries have left the log. */
  ghost predicate Parted(h: Hash, st: Storage, catalog: seq<FamilyIdentity>, calls: seq<Call>)
    requires st.policy.Some?
  {
    var built, direct := Built(h, st, catalog, Engage(h, st, catalog), calls), Performed(h, st, catalog, calls);
    built.results != direct.results || Dropped(direct.storage) > Dropped(st)
  }

  lemma {:induction false} PerformedPolicy(h: Hash, st: Storage, catalog: seq<FamilyIdentity>, calls: seq<Call>)
    requires st.policy.Some?
    ensures Performed(h, st, catalog, calls).storage.policy == st.policy
  {
    if calls != [] {
      var init := calls[..|calls| - 1];
      PerformedPolicy(h, st, catalog, init);
      PerformDrops(h, Performed(h, st, catalog, init).storage, catalog, calls[|calls| - 1]);
    }
  }

  lemma LastDiffers<T>(a: seq<T>, b: seq<T>, x: T, y: T)
    requires |a| == |b| && (a != b || x != y)
    ensures a + [x] != b + [y]
  {
    assert (a + [x])[..|a|] == a && (b + [y])[..|b|] == b;
    assert (a + [x])[|a|] == x && (b + [y])[|b|] == y;
  }

  lemma {:induction false} ResultCounts(h: Hash, st: Storage, catalog: seq<FamilyIdentity>, s: Session,
                                        calls: seq<Call>)
    ensures |Built(h, st, catalog, s, calls).results| == |Performed(h, st, catalog, calls).results| == |calls|
  {
    if calls != [] { ResultCounts(h, st, catalog, s, calls[..|calls| - 1]); }
  }

  /** Once parted, no later call brings the two together. */
  lemma StaysParted(h: Hash, st: Storage, catalog: seq<FamilyIdentity>, calls: seq<Call>)
    requires st.policy.Some? && calls != [] && Parted(h, st, catalog, calls[..|calls| - 1])
    ensures Parted(h, st, catalog, calls)
  {
    var init, call := calls[..|calls| - 1], calls[|calls| - 1];
    var built, direct := Built(h, st, catalog, Engage(h, st, catalog), init), Performed(h, st, catalog, init);
    PerformedPolicy(h, st, catalog, init);
    PerformDrops(h, direct.storage, catalog, call);
    ResultCounts(h, st, catalog, Engage(h, st, catalog), init);
    if built.results != direct.results {
      LastDiffers(built.results, direct.results, StagedCall(h, st, catalog, built.session, call).result,
                  Perform(h, direct.storage, catalog, call).result);
    }
  }

  /** The call that first compacts parts them. */
  lemma TriggerParts(h: Hash, w: World, st: Storage, catalog: seq<FamilyIdentity>, calls: seq<Call>)
    requires Inv(h, w, st, catalog) && AllDisciplined(w, calls) && st.policy.Some? && calls != []
    requires Untriggered(h, st, catalog, calls[..|calls| - 1]) && !Untriggered(h, st, catalog, calls)
    ensures Parted(h, st, catalog, calls)
  {
    var init, call := calls[..|calls| - 1], calls[|calls| - 1];
    var built, direct := Built(h, st, catalog, Engage(h, st, catalog), init), Performed(h, st, catalog, init);
    BuildIsPerform(h, w, st, catalog, init);
    ShadowDrops(h, w, st, catalog, built.session);
    StagedIsDirect(h, w, st, catalog, built.session, call);
    TriggerShows(h, w, direct.storage, catalog, call);
    ResultCounts(h, st, catalog, Engage(h, st, catalog), init);
    if Perform(h, direct.storage, catalog, call).result.Err? {
      LastDiffers(built.results, direct.results, StagedCall(h, st, catalog, built.session, call).result,
                  Perform(h, direct.storage, catalog, call).result);
    }
  }

  lemma {:induction false} TriggeredParts(h: Hash, w: World, st: Storage, catalog: seq<FamilyIdentity>,
                                          calls: seq<Call>)
    requires Inv(h, w, st, catalog) && AllDisciplined(w, calls) && st.policy.Some?
             && !Untriggered(h, st, catalog, calls)
    ensures Parted(h, st, catalog, calls)
  {
    var init := calls[..|calls| - 1];
    if Untriggered(h, st, catalog, init) {
      TriggerParts(h, w, st, catalog, calls);
    } else {
      TriggeredParts(h, w, st, catalog, init);
      StaysParted(h, st, catalog, calls);
    }
  }

  /** What parking a session and materializing it leaves of the store. */
  function Settled(h: Hash, st: Storage, directory: Directory, s: Session): Storage {
    Materialize(h, Park(st, Some(s)).storage, directory, false).storage
  }

  lemma SettledIsShadow(h: Hash, w: World, st: Storage, catalog: seq<FamilyIdentity>, s: Session)
    requires SessionOk(h, w, st, catalog, s) && st.slot.None? && st.intent.None?
    ensures Settled(h, st, w.identified, s) == Shadow(st, s)
  {
    if s.entries != [] {
      SessionGroupOk(h, w, st, catalog, s);
      ParkedMaterializes(h, w, st, catalog, s);
    }
  }

  /** Staging a sequence of calls, parking and materializing it returns and leaves
      what the same calls made directly do if and only if none of those direct calls
      compacts history. */
  lemma StagingIsExact(h: Hash, w: World, st: Storage, catalog: seq<FamilyIdentity>, calls: seq<Call>)
    requires Inv(h, w, st, catalog) && AllDisciplined(w, calls)
    requires st.policy.Some? && st.slot.None? && st.intent.None?
    ensures var built, direct := Built(h, st, catalog, Engage(h, st, catalog), calls), Performed(h, st, catalog, calls);
            && built.results == direct.results && Settled(h, st, w.identified, built.session) == direct.storage
            <==> Untriggered(h, st, catalog, calls)
  {
    var s := Built(h, st, catalog, Engage(h, st, catalog), calls).session;
    BuildsOk(h, w, st, catalog, calls);
    SettledIsShadow(h, w, st, catalog, s);
    ShadowDrops(h, w, st, catalog, s);
    if Untriggered(h, st, catalog, calls) {
      BuildIsPerform(h, w, st, catalog, calls);
    } else {
      TriggeredParts(h, w, st, catalog, calls);
    }
  }
}
