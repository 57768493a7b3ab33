// One storage transaction: a working copy the write paths change row by row, and
// the log planes that write into it.
module Transactions {
  import opened ByteStrings
  import opened Errors
  import opened Versioning
  import opened CanonicalViews
  import opened Checkpoints
  import opened Stores
  import opened Invariants
  import opened Histories
  import opened Retention
  import opened Rebuilding
  import opened Writes
  import opened Evolution
  import opened Staging
  import opened StagingLaws
  import opened Imports
  import opened Ledgers

  /** No log row is numbered past the commit cursor, so the next one goes last. */
  ghost predicate Ordered(st: Storage) {
    && (st.commits != [] ==> st.commits[|st.commits| - 1].sequence <= Sequence(st))
    && (st.versioned != [] ==> st.versioned[|st.versioned| - 1].sequence <= Sequence(st))
    && (st.outbox != [] ==> st.outbox[|st.outbox| - 1].sequence <= Sequence(st))
  }

  lemma SoundIsOrdered(st: Storage)
    requires Sequenced(st) && MirrorOk(st)
    ensures Ordered(st)
  {
    if Mirrored(st) && st.versioned != [] { OutboxLast(st.versioned); }
  }

  /** The log half of an append. */
  function Logged(st: Storage, e: Entry): Storage {
    st.(commits := st.commits + [Project(e)],
        versioned := st.versioned + [e],
        head := Some(e.digest),
        commitCount := st.commitCount + 1,
        versionedCount := st.versionedCount + 1,
        sequence := Some(e.sequence),
        snapshot := Some(e.snapshot),
        outbox := st.outbox + if Mirrored(st) then [OutboxRow(e.sequence, e.digest)] else [])
  }

  lemma {:induction false} LaterRows(st: Storage, e: Entry)
    requires Ordered(st) && e.sequence > Sequence(st)
    ensures Put(st.commits, CommitRowSequence, Project(e)) == st.commits + [Project(e)]
    ensures Put(st.versioned, EntryRowSequence, e) == st.versioned + [e]
    ensures Put(st.outbox, OutboxRowSequence, OutboxRow(e.sequence, e.digest)) ==
              st.outbox + [OutboxRow(e.sequence, e.digest)]
    ensures Ordered(Logged(st, e))
  {
    LaterRow(st.commits, CommitRowSequence, Project(e), Sequence(st));
    LaterRow(st.versioned, EntryRowSequence, e, Sequence(st));
    LaterRow(st.outbox, OutboxRowSequence, OutboxRow(e.sequence, e.digest), Sequence(st));
  }

  lemma LaterRow<T>(rows: seq<T>, at: T -> nat, row: T, last: nat)
    requires (rows != [] ==> at(rows[|rows| - 1]) <= last) && at(row) > last
    ensures Put(rows, at, row) == rows + [row] && (rows + [row])[|rows + [row]| - 1] == row
  {
  }

  lemma LaterCommit(st: Storage, c: CommitEntry)
    requires Ordered(st) && c.sequence > Sequence(st)
    ensures Put(st.commits, CommitRowSequence, c) == st.commits + [c]
  {
  }

  /** Keys of the rows up to a sequence. */
  function KeysUpTo<T>(rows: seq<T>, at: T -> nat, through: nat): seq<nat> {
    if rows == [] then []
    else KeysUpTo(rows[..|rows| - 1], at, through) + if at(rows[|rows| - 1]) <= through then [at(rows[|rows| - 1])]
         else []
  }

  function RemoveKey<T>(rows: seq<T>, at: T -> nat, key: nat): seq<T> {
    if rows == [] then []
    else RemoveKey(rows[..|rows| - 1], at, key) + if at(rows[|rows| - 1]) == key then [] else [rows[|rows| - 1]]
  }

  function RemoveKeys<T>(rows: seq<T>, at: T -> nat, keys: seq<nat>): seq<T> {
    if keys == [] then rows else RemoveKey(RemoveKeys(rows, at, keys[..|keys| - 1]), at, keys[|keys| - 1])
  }

  lemma {:induction false} RemoveKeyAppend<T>(rows: seq<T>, at: T -> nat, key: nat, row: T)
    ensures RemoveKey(rows + [row], at, key) == RemoveKey(rows, at, key) + if at(row) == key then [] else [row]
  {
    assert (rows + [row])[..|rows|] == rows;
  }

  lemma {:induction false} RemoveKeysAppend<T>(rows: seq<T>, at: T -> nat, keys: seq<nat>, row: T)
    ensures RemoveKeys(rows + [row], at, keys) == RemoveKeys(rows, at, keys) + if at(row) in keys then [] else [row]
  {
    if keys != [] {
      var init, key := keys[..|keys| - 1], keys[|keys| - 1];
      assert keys == init + [key];
      RemoveKeysAppend(rows, at, init, row);
      var before := RemoveKeys(rows, at, init);
      if at(row) !in init { RemoveKeyAppend(before, at, key, row); }
      assert before + [] == before;
    }
  }

  lemma {:induction false} KeysAre<T>(rows: seq<T>, at: T -> nat, through: nat)
    ensures forall k ::
              k in KeysUpTo(rows, at, through) <==> k <= through && exists i :: 0 <= i < |rows| && at(rows[i]) == k
  {
    if rows != [] {
      var init := rows[..|rows| - 1];
      KeysAre(init, at, through);
      forall k | k <= through && exists i :: 0 <= i < |rows| && at(rows[i]) == k
        ensures k in KeysUpTo(rows, at, through)
      {
        var i :| 0 <= i < |rows| && at(rows[i]) == k;
        if i < |init| { assert at(init[i]) == k; }
      }
    }
  }

  lemma {:induction false} RemoveAmong<T>(rows: seq<T>, at: T -> nat, keys: seq<nat>, through: nat)
    requires forall i :: 0 <= i < |rows| ==> (at(rows[i]) in keys <==> at(rows[i]) <= through)
    ensures RemoveKeys(rows, at, keys) == From(rows, at, through + 1)
  {
    if rows == [] {
      NoneToRemove<T>(at, keys);
    } else {
      var init, row := rows[..|rows| - 1], rows[|rows| - 1];
      assert rows == init + [row];
      RemoveAmong(init, at, keys, through);
      RemoveKeysAppend(init, at, keys, row);
    }
  }

  lemma {:induction false} NoneToRemove<T>(at: T -> nat, keys: seq<nat>)
    ensures RemoveKeys<T>([], at, keys) == []
  {
    if keys != [] { NoneToRemove<T>(at, keys[..|keys| - 1]); }
  }

  /** Collecting the keys of a prefix and removing them, one by one, leaves exactly
      the later rows. */
  lemma PrefixRemoved<T>(rows: seq<T>, at: T -> nat, through: nat)
    ensures RemoveKeys(rows, at, KeysUpTo(rows, at, through)) == From(rows, at, through + 1)
  {
    KeysAre(rows, at, through);
    RemoveAmong(rows, at, KeysUpTo(rows, at, through), through);
  }

  lemma {:induction false} KeyCount<T>(rows: seq<T>, at: T -> nat, through: nat)
    ensures |KeysUpTo(rows, at, through)| + |From(rows, at, through + 1)| == |rows|
  {
    if rows != [] { KeyCount(rows[..|rows| - 1], at, through); }
  }

  /** Read the keys of a compactable prefix. */
  method KeysThrough<T>(rows: seq<T>, at: T -> nat, through: nat) returns (keys: seq<nat>)
    ensures keys == KeysUpTo(rows, at, through)
  {
    keys := [];
    for i := 0 to |rows|
      invariant keys == KeysUpTo(rows[..i], at, through)
    {
      assert rows[..i + 1][..i] == rows[..i];
      if at(rows[i]) <= through { keys := keys + [at(rows[i])]; }
    }
    assert rows[..|rows|] == rows;
  }

  class Transaction {
    var st: Storage

    constructor (st: Storage)
      ensures this.st == st
    {
      this.st := st;
    }

    // ---- Rows ----

    method InsertRow(c: Coord, bytes: Bytes)
      modifies this
      ensures st == old(st).(tables := old(st).tables[c := bytes])
    {
      st := st.(tables := st.tables[c := bytes]);
    }

    method RemoveRow(c: Coord)
      modifies this
      ensures st == old(st).(tables := old(st).tables - {c})
    {
      st := st.(tables := st.tables - {c});
    }

    /** Land one row through the component's directory. */
    method Materialize(directory: Directory, row: ViewRow) returns (r: Result<()>)
      modifies this
      ensures r.Ok? ==>
                MaterializeRow(directory, old(st).tables, row) == Ok(st.tables) && st == old(st).(tables := st.tables)
      ensures r.Err? ==> MaterializeRow(directory, old(st).tables, row) == Err(r.error)
    {
      if row.key.Identifier? != (row.family.table in directory) {
        return Err(MaterializeKeyKindMismatch(row.family.table, Text(row.key)));
      }
      match row.payload {
        case Record(bytes) => InsertRow(RowCoord(row), bytes);
        case Tombstone => RemoveRow(RowCoord(row));
      }
      return Ok(());
    }

    /** Domain rows land under key text, identified rows under their number. */
    method LandOperations(ops: seq<LogOperation>, byText: bool)
      requires forall op :: op in ops ==> op.key.Some?
      modifies this
      ensures st ==
                old(st).(tables := if byText then TextsOnTables(old(st).tables, ops)
                         else OperationsOnTables(old(st).tables, ops))
    {
      var before := st;
      for i := 0 to |ops|
        invariant st ==
                    before.(tables := if byText then TextsOnTables(before.tables, ops[..i])
                            else OperationsOnTables(before.tables, ops[..i]))
      {
        assert ops[..i + 1][..i] == ops[..i] && ops[i] in ops;
        var op := ops[i];
        var c := if byText then TextSlot(op.family.table, op.key.value) else Coord(op.family.table, op.key.value);
        match op.payload {
          case Record(bytes) => InsertRow(c, bytes);
          case Tombstone => RemoveRow(c);
        }
      }
      assert ops[..|ops|] == ops;
    }

    method AdvanceCursor(sequence: nat, snapshot: nat)
      modifies this
      ensures st == old(st).(sequence := Some(sequence), snapshot := Some(snapshot))
    {
      st := st.(sequence := Some(sequence), snapshot := Some(snapshot));
    }

    // ---- Logs ----

    /** The one write of a metadata row and its count. */
    method AppendCommit(entry: CommitEntry, count: nat)
      modifies this
      ensures st == old(st).(commits := Put(old(st).commits, CommitRowSequence, entry), commitCount := count)
    {
      st := st.(commits := Put(st.commits, CommitRowSequence, entry), commitCount := count);
    }

    /** The one write of a versioned entry, the head slot and the count. */
    method AppendVersioned(e: Entry, count: nat)
      modifies this
      ensures st ==
                old(st).(versioned := Put(old(st).versioned, EntryRowSequence, e), head := Some(e.digest),
                         versionedCount := count)
    {
      st := st.(versioned := Put(st.versioned, EntryRowSequence, e), head := Some(e.digest), versionedCount := count);
    }

    /** The mirror row beside an entry. */
    method RecordOutbox(e: Entry)
      modifies this
      ensures st ==
                old(st).(outbox := if Mirrored(old(st))
                         then Put(old(st).outbox, OutboxRowSequence, OutboxRow(e.sequence, e.digest))
                                      else old(st).outbox)
    {
      if Mirrored(st) {
        st := st.(outbox := Put(st.outbox, OutboxRowSequence, OutboxRow(e.sequence, e.digest)));
      }
    }

    /** The metadata row and cursors of a commit without versioning. */
    method AppendPlain(c: CommitEntry)
      requires Ordered(st) && c.sequence > Sequence(st)
      modifies this
      ensures st == old(st).(commits := old(st).commits + [c], commitCount := old(st).commitCount + 1,
                             sequence := Some(c.sequence), snapshot := Some(c.snapshot))
      ensures Ordered(st)
    {
      LaterCommit(st, c);
      AppendCommit(c, st.commitCount + 1);
      AdvanceCursor(c.sequence, c.snapshot);
    }

    /** Both log rows, the outbox row and the cursors of one versioned commit. */
    method AppendBoth(e: Entry)
      requires Ordered(st) && e.sequence > Sequence(st)
      modifies this
      ensures st == Logged(old(st), e) && Ordered(st)
    {
      LaterRows(st, e);
      AppendCommit(Project(e), st.commitCount + 1);
      AppendVersioned(e, st.versionedCount + 1);
      RecordOutbox(e);
      AdvanceCursor(e.sequence, e.snapshot);
    }

    /** Remove a read prefix from both logs and the outbox, key by key, and every
        checkpoint and segment the rooted checkpoint does not need. */
    method CompactThrough(h: Hash, k: Checkpoint, commitKeys: seq<nat>, versionedKeys: seq<nat>, outboxKeys: seq<nat>)
      requires commitKeys == KeysUpTo(st.commits, CommitRowSequence, k.metadata.last)
      requires versionedKeys == KeysUpTo(st.versioned, EntryRowSequence, k.metadata.last)
      requires outboxKeys == KeysUpTo(st.outbox, OutboxRowSequence, k.metadata.last)
      modifies this
      ensures st == Trim(h, old(st), k)
    {
      var commits := RemoveRows(st.commits, CommitRowSequence, k.metadata.last, commitKeys);
      var versioned := RemoveRows(st.versioned, EntryRowSequence, k.metadata.last, versionedKeys);
      var outbox := RemoveRows(st.outbox, OutboxRowSequence, k.metadata.last, outboxKeys);
      st := st.(commits := commits, versioned := versioned, outbox := outbox,
                commitCount := Saturating(st.commitCount, |commitKeys|),
                versionedCount := Saturating(st.versionedCount, |versionedKeys|),
                checkpoints := map[k.metadata.sequence := Rooted(h, k.metadata)],
                segments := map d | d in st.segments && d in Referenced(k.metadata) :: st.segments[d]);
    }
  }

  /** Remove rows by key; of the keys of a prefix, what is left is the suffix. */
  method RemoveRows<T>(rows: seq<T>, at: T -> nat, through: nat, keys: seq<nat>) returns (kept: seq<T>)
    requires keys == KeysUpTo(rows, at, through)
    ensures kept == From(rows, at, through + 1) && |keys| == |rows| - |kept|
  {
    kept := rows;
    for i := 0 to |keys|
      invariant kept == RemoveKeys(rows, at, keys[..i])
    {
      assert keys[..i + 1][..i] == keys[..i];
      kept := RemoveKey(kept, at, keys[i]);
    }
    assert keys[..|keys|] == keys;
    PrefixRemoved(rows, at, through);
    KeyCount(rows, at, through);
  }
}
