// The cached slots beside the logs: the chain head and the two counts, and their
// recomputation from the log at open.
module LogSlots {
  import opened ByteStrings
  import opened Errors
  import opened Versioning
  import opened CanonicalViews
  import opened Checkpoints
  import opened Stores
  import opened Invariants
  import opened Histories
  import opened Retention
  import opened Ledgers
  import opened Lifetimes
  import opened ViewFolding

  /** Verify the whole log from no predecessor, then recompute the three slots. */
  function RebuildSlots(h: Hash, st: Storage): Outcome<()> {
    var view := Fold(h, [], st.versioned, None);
    if view.Err? then Outcome(Err(view.error), st)
    else Outcome(Ok(()),
                 st.(head := HeadAfter(st.versioned, None), commitCount := |st.commits|,
                     versionedCount := |st.versioned|))
  }

  method RebuildDerivedSlots(h: Hash, st: Storage) returns (r: Result<()>, after: Storage)
    ensures Outcome(r, after) == RebuildSlots(h, st)
  {
    var view := FoldLog(h, [], st.versioned, None);
    if view.Err? { return Err(view.error), st; }
    var head := None;
    if st.versioned != [] { head := Some(st.versioned[|st.versioned| - 1].digest); }
    return Ok(()), st.(head := head, commitCount := |st.commits|, versionedCount := |st.versioned|);
  }

  lemma {:induction false} ChainedLink(h: Hash, entries: seq<Entry>, head: Option<Digest>, i: nat)
    requires Chained(h, entries, head) && i < |entries|
    ensures entries[i].previous == HeadAfter(entries[..i], head)
  {
    var n := |entries| - 1;
    if i < n {
      assert entries[..n][..i] == entries[..i];
      ChainedLink(h, entries[..n], head, i);
    }
  }

  /** The first retained entry names no predecessor exactly when it is the first
      entry ever appended. */
  lemma FirstOfHistory(h: Hash, w: World, st: Storage, history: seq<Entry>)
    requires Chronicle(h, w, st, history) && Retains(st, history) && st.versioned != []
    ensures st.versioned[0].previous == None <==> |st.versioned| == |history|
  {
    var i := |history| - |st.versioned|;
    assert st.versioned[0] == history[i];
    ChainedLink(h, history, None, i);
  }

  lemma RetainedApplies(h: Hash, w: World, st: Storage, history: seq<Entry>)
    requires Chronicle(h, w, st, history) && Retains(st, history)
    ensures EntriesApplicable(st.versioned)
  {
    var k := |history| - |st.versioned|;
    forall i | 0 <= i < |st.versioned| ensures AllPlaced(w, st.versioned[i].operations) {
      assert st.versioned[i] == history[k + i];
    }
    HistoryApplies(w, st.versioned);
  }

  lemma RebuildAccepts(h: Hash, st: Storage)
    requires Linked(h, st) && st.versioned != [] && EntriesApplicable(st.versioned)
    ensures RebuildSlots(h, st).result.Ok? <==> st.versioned[0].previous == None
  {
    FoldMeaning(h, EMPTY_VIEW, st.versioned, None);
    if Chained(h, st.versioned, None) { ChainedStarts(h, st.versioned, None); }
  }

  /** Whatever the three slots hold, recomputing them from the log of a sound store
      restores them if and only if the log was never compacted. */
  lemma RebuildSlotsIsExact(h: Hash, w: World, st: Storage, history: seq<Entry>, head: Option<Digest>, commits: nat,
                            versioned: nat)
    requires Chronicle(h, w, st, history) && Retains(st, history) && Linked(h, st) && Sequenced(st)
             && st.versioned != []
    ensures var damaged := st.(head := head, commitCount := commits, versionedCount := versioned);
            RebuildSlots(h, damaged) == Outcome(Ok(()), st) <==> |st.versioned| == Sequence(st)
  {
    RetainedApplies(h, w, st, history);
    RebuildAccepts(h, st);
    FirstOfHistory(h, w, st, history);
  }

  /** The length test the engine makes tells exactly whether every retained commit
      has its versioned entry. */
  lemma CompleteMeansVersioned(st: Storage)
    requires Sequenced(st)
    ensures Complete(st)
            <==> forall c :: c in st.commits ==> exists i :: 0 <= i < |st.versioned| && Project(st.versioned[i]) == c
  {
    if Complete(st) {
      forall c | c in st.commits ensures exists i :: 0 <= i < |st.versioned| && Project(st.versioned[i]) == c {
        var j :| 0 <= j < |st.commits| && st.commits[j] == c;
        assert Project(st.versioned[j]) == c;
      }
    } else {
      var c := st.commits[0];
      assert c in st.commits;
      forall i | 0 <= i < |st.versioned| ensures Project(st.versioned[i]) != c {
        assert Project(st.versioned[i]) == st.commits[|st.commits| - |st.versioned| + i];
      }
    }
  }
}
