// Concrete stores on which the engine keeps less than it says, whatever the hash.
module Witnesses {
  import opened ByteStrings
  import opened Errors
  import opened Versioning
  import opened CanonicalViews
  import opened Checkpoints
  import opened Catalogs
  import opened Stores
  import opened Invariants
  import opened Histories
  import opened Retention
  import opened Writes
  import opened Evolution
  import opened Rebuilding
  import opened Staging
  import opened StagingLaws
  import opened StagingSafety
  import opened Runs

  // ---- One family, two generations, two tables ----

  const THIS_TABLE: Name := [84]
  const OTHER_TABLE: Name := [85]
  const KEY: Bytes := [120]
  const LOCAL := Policy([115], LocalCheckpoint, 10)

  function Generation(n: Byte): Digest { seq(32, _ => n) }

  function Family(n: Byte, table: Name): FamilyIdentity { FamilyIdentity([70], Generation(n), table) }

  /** A declaration of a generation, with generation 1 as its prior and a carry that
      keeps every row as it is. */
  function Declaring(n: Byte, table: Name): Descriptor {
    Descriptor(Family(n, table), [Prior(Generation(1), bytes => Some(bytes))])
  }

  function AssertIn(table: Name, record: Bytes): Call { Keyed(Write(Assertion, table, Domain(KEY), record)) }

  function Where(table: Name): Coord { Coord(table, Domain(KEY)) }

  lemma GenerationsDiffer()
    ensures Generation(1) != Generation(2)
  {
    assert Generation(1)[0] != Generation(2)[0];
  }

  // ---- What each step does ----

  lemma NewIs(h: Hash, sys: System, d: Descriptor)
    requires FamilyRegistrationState(sys.catalog, d.family) == Ok(New)
    ensures RegisterFamily(h, sys, d) ==
            sys.(storage := sys.storage.(registrations := sys.storage.registrations[d.family.table := d.family]),
                 catalog := sys.catalog + [d.family])
  {
    Nothing(sys.history);
  }

  /** A store with room for one more entry, and no checkpoint yet. */
  predicate Roomy(st: Storage) {
    st.policy.Some? && st.latestCheckpoint.None? && st.cursor.None? && |st.versioned| < st.policy.value.maximumLive
  }

  lemma Prepended<T>(x: T)
    ensures [] + [x] == [x]
  {
  }

  lemma PlanOne(tables: Tables, catalog: seq<FamilyIdentity>, table: Name, record: Bytes, family: FamilyIdentity)
    requires FindTable(catalog, table) == Some(family) && Where(table) !in tables
    ensures Prepare(tables, catalog, [Write(Assertion, table, Domain(KEY), record)]) ==
            Ok([Prepared(LogOperation(Assert, family, Some(Domain(KEY)), Record(record)), record)])
  {
    var write := Write(Assertion, table, Domain(KEY), record);
    assert [write][..0] == [] && Prepare(tables, catalog, []) == Ok([]);
    assert PrepareOne(tables, catalog, write) ==
             Ok(Prepared(LogOperation(Assert, family, Some(Domain(KEY)), Record(record)), record));
    Prepended(Prepared(LogOperation(Assert, family, Some(Domain(KEY)), Record(record)), record));
  }

  lemma AssertIs(h: Hash, sys: System, table: Name, record: Bytes, family: FamilyIdentity)
    requires Roomy(sys.storage) && sys.build.None?
    requires FindTable(sys.catalog, table) == Some(family) && family.table == table
             && Where(table) !in sys.storage.tables
    ensures var next := IssueCall(h, sys, AssertIn(table, record));
            && next.storage.tables == sys.storage.tables[Where(table) := record]
            && |next.storage.versioned| == |sys.storage.versioned| + 1
               && Sequence(next.storage) == Sequence(sys.storage) + 1
            && next.storage.registrations == sys.storage.registrations && next.storage.policy == sys.storage.policy
            && next.storage.cursor.None? && next.storage.latestCheckpoint.None?
            && next.catalog == sys.catalog && next.build.None?
  {
    var st, op := sys.storage, LogOperation(Assert, family, Some(Domain(KEY)), Record(record));
    PlanOne(st.tables, sys.catalog, table, record, family);
    DirectIs(h, st, sys.catalog, AssertIn(table, record));
    CommittedIs(h, st, sys.catalog, AssertIn(table, record), op, record);
    var done := Direct(h, st, sys.catalog, AssertIn(table, record));
    assert Maintain(h, done.storage, sys.catalog, Sequence(done.storage)) == Outcome(Ok(()), done.storage);
  }

  lemma CommittedIs(h: Hash, st: Storage, catalog: seq<FamilyIdentity>, call: Call, op: LogOperation, record: Bytes)
    requires Roomy(st) && IsDomainCall(call) && op.key == Some(Domain(KEY)) && op.payload == Record(record)
    ensures var st' := CommitPlan(h, st, catalog, call, [Prepared(op, record)]).storage;
            && st'.tables == st.tables[Where(op.family.table) := record]
            && |st'.versioned| == |st.versioned| + 1 && Sequence(st') == Sequence(st) + 1
            && st'.registrations == st.registrations && st'.policy == st.policy
            && st'.cursor.None? && st'.latestCheckpoint.None?
  {
    var ops := OpsOf([Prepared(op, record)]);
    assert ops == [op] && [op][..0] == [] && TextsOnTables(st.tables, []) == st.tables;
    assert TextsOnTables(st.tables, [op]) == TextOnTables(st.tables, op);
  }

  lemma CarriesOne(st: Storage, table: Name, record: Bytes, d: Descriptor)
    requires Where(table) in st.tables && st.tables[Where(table)] == record
    requires forall c :: c in st.tables && c.table == table ==> c == Where(table)
    requires d == Declaring(2, table)
    ensures CarryRows(st.tables, table, d.priors[0], TextKeys(st.tables, table)) == Ok([Row(KEY, record)])
  {
    LexOrder();
    var keys := set c | c in st.tables && c.table == table && c.slot.Domain? :: c.slot.text;
    assert keys == {KEY} by { assert Where(table).slot.text == KEY; }
    var texts := TextKeys(st.tables, table);
    assert texts == InOrder(keys, Lex) && |texts| == 1;
    assert texts[0] in texts;
    Prepended(Row(KEY, record));
    assert texts == [KEY] && [KEY][..0] == [] && CarryRows(st.tables, table, d.priors[0], []) == Ok([]);
  }

  /** A new store with one table bound to a generation. */
  function Bound(h: Hash, policy: Policy, n: Byte): System {
    RegisterFamily(h, Created(policy), Declaring(n, THIS_TABLE))
  }

  lemma BoundIs(h: Hash, policy: Policy, n: Byte)
    ensures var sys := Bound(h, policy, n);
            && sys.storage == EmptyStore(Some(policy)).(registrations := map[THIS_TABLE := Family(n, THIS_TABLE)])
            && sys.catalog == [Family(n, THIS_TABLE)] && sys.build.None? && sys.history == []
  {
    NewIs(h, Created(policy), Declaring(n, THIS_TABLE));
    Prepended(Family(n, THIS_TABLE));
  }

  // ---- A mirrored store at its live budget ----

  /** ... and one row in it. */
  function AtBudget(h: Hash): System {
    IssueCall(h, Bound(h, Policy([115], Mirror, 1), 1), AssertIn(THIS_TABLE, [97]))
  }

  lemma AtBudgetIs(h: Hash)
    ensures var sys := AtBudget(h); var st := sys.storage;
            && st.tables == map[Where(THIS_TABLE) := [97]] && |st.versioned| == 1 && Sequence(st) == 1
            && st.registrations == map[THIS_TABLE := Family(1, THIS_TABLE)]
               && st.policy == Some(Policy([115], Mirror, 1))
            && st.cursor.None? && st.latestCheckpoint.None? && sys.catalog == [Family(1, THIS_TABLE)]
  {
    BoundIs(h, Policy([115], Mirror, 1), 1);
    AssertIs(h, Bound(h, Policy([115], Mirror, 1), 1), THIS_TABLE, [97], Family(1, THIS_TABLE));
  }

  lemma ListsOne(id: FamilyIdentity)
    ensures Lists([id], map[id.table := id])
  {
    forall t ensures FindTable([id], t) == Lookup(map[id.table := id], t) {
      assert [id][1..] == [] && FindTable([], t) == None;
    }
  }

  lemma EvolvedOne(a: FamilyIdentity, b: FamilyIdentity)
    requires a.table == b.table
    ensures Evolved([a], a.table, b) == Ok([b])
  {
    assert [b] + [a][1..] == [b];
  }

  lemma EvolvesOver(h: Hash, st: Storage)
    requires Mirrored(st) && st.policy.value.maximumLive == 1 && |st.versioned| == 1 && st.cursor.None?
             && Sequence(st) == 1
    requires CarryRows(st.tables, THIS_TABLE, Declaring(2, THIS_TABLE).priors[0], TextKeys(st.tables, THIS_TABLE)) ==
               Ok([Row(KEY, [97])])
    ensures var out := RegisterTable(h, st, [Family(1, THIS_TABLE)], None, Declaring(2, THIS_TABLE));
            && out.result == Err(HistoryCompactionUnacknowledged(2, None))
            && FindTable(out.catalog, THIS_TABLE) == Some(Family(1, THIS_TABLE))
            && Lookup(out.storage.registrations, THIS_TABLE) == Some(Family(2, THIS_TABLE))
  {
    GenerationsDiffer();
    var d, catalog := Declaring(2, THIS_TABLE), [Family(1, THIS_TABLE)];
    assert FindTable(catalog, THIS_TABLE) == Some(Family(1, THIS_TABLE));
    assert StepFor(d, Family(1, THIS_TABLE)) == Some(d.priors[0]);
    EvolvedOne(Family(1, THIS_TABLE), Family(2, THIS_TABLE));
    EvolvedOne(Family(2, THIS_TABLE), Family(1, THIS_TABLE));
    var rows := [Row(KEY, [97])];
    var st' := PersistEvolution(h, st, [Family(2, THIS_TABLE)], Family(1, THIS_TABLE), Family(2, THIS_TABLE), rows);
    assert |st'.versioned| == 2 && st'.cursor.None? && Mirrored(st') && Sequence(st') == 2;
    assert Maintain(h, st', [Family(2, THIS_TABLE)], 2) == Outcome(Err(HistoryCompactionUnacknowledged(2, None)), st');
  }

  /** The maintenance after an evolution fails once the write is durable: the table
      is bound to generation 2 on disk and to generation 1 in memory. */
  lemma FailedMaintenanceWitness(h: Hash)
    ensures var sys := AtBudget(h);
            var out := RegisterTable(h, sys.storage, sys.catalog, None, Declaring(2, THIS_TABLE));
            && Lists(sys.catalog, sys.storage.registrations)
            && out.result == Err(HistoryCompactionUnacknowledged(2, None))
            && FindTable(out.catalog, THIS_TABLE) == Some(Family(1, THIS_TABLE))
            && Lookup(out.storage.registrations, THIS_TABLE) == Some(Family(2, THIS_TABLE))
  {
    AtBudgetIs(h);
    var st := AtBudget(h).storage;
    ListsOne(Family(1, THIS_TABLE));
    CarriesOne(st, THIS_TABLE, [97], Declaring(2, THIS_TABLE));
    EvolvesOver(h, st);
  }

  // ---- Two tables under one family version ----

  /** No view agrees with the tables, wherever family versions live. */
  ghost predicate Viewless(tables: Tables, registrations: map<Name, FamilyIdentity>) {
    forall w, rows :: !Agrees(w, tables, rows, registrations)
  }

  function Pair(n: Byte): seq<FamilyIdentity> { [Family(2, THIS_TABLE), Family(n, OTHER_TABLE)] }

  function BoundTwice(h: Hash): System {
    RegisterFamily(h, Bound(h, LOCAL, 2), Declaring(1, OTHER_TABLE))
  }

  lemma BoundTwiceIs(h: Hash)
    ensures var sys := BoundTwice(h);
            var bound := map[THIS_TABLE := Family(2, THIS_TABLE), OTHER_TABLE := Family(1, OTHER_TABLE)];
            && sys.storage == EmptyStore(Some(LOCAL)).(registrations := bound)
            && sys.catalog == Pair(1) && sys.build.None?
  {
    GenerationsDiffer();
    var first := Bound(h, LOCAL, 2);
    BoundIs(h, LOCAL, 2);
    NewIs(h, first, Declaring(1, OTHER_TABLE));
  }

  /** A row under the same key in each. */
  function FirstFilled(h: Hash): System { IssueCall(h, BoundTwice(h), AssertIn(THIS_TABLE, [97])) }
  function BothFilled(h: Hash): System { IssueCall(h, FirstFilled(h), AssertIn(OTHER_TABLE, [98])) }

  lemma FirstFilledIs(h: Hash)
    ensures var sys := FirstFilled(h); var st := sys.storage;
            && st.tables == map[Where(THIS_TABLE) := [97]] && |st.versioned| == 1
            && st.registrations == BoundTwice(h).storage.registrations && st.policy == Some(LOCAL)
            && st.cursor.None? && st.latestCheckpoint.None? && sys.catalog == Pair(1) && sys.build.None?
  {
    BoundTwiceIs(h);
    AssertIs(h, BoundTwice(h), THIS_TABLE, [97], Family(2, THIS_TABLE));
  }

  lemma BothFilledIs(h: Hash)
    ensures var sys := BothFilled(h); var st := sys.storage;
            && st.tables == map[Where(THIS_TABLE) := [97], Where(OTHER_TABLE) := [98]] && |st.versioned| == 2
            && st.registrations == map[THIS_TABLE := Family(2, THIS_TABLE), OTHER_TABLE := Family(1, OTHER_TABLE)]
            && st.policy == Some(LOCAL) && st.latestCheckpoint.None? && sys.catalog == Pair(1)
  {
    BoundTwiceIs(h);
    FirstFilledIs(h);
    FillsOther(h, FirstFilled(h));
  }

  lemma FillsOther(h: Hash, sys: System)
    requires sys.storage.tables == map[Where(THIS_TABLE) := [97]] && |sys.storage.versioned| == 1
    requires sys.storage.policy == Some(LOCAL) && sys.catalog == Pair(1) && sys.build.None?
    requires sys.storage.cursor.None? && sys.storage.latestCheckpoint.None?
    ensures var next := IssueCall(h, sys, AssertIn(OTHER_TABLE, [98])); var st := next.storage;
            && st.tables == map[Where(THIS_TABLE) := [97], Where(OTHER_TABLE) := [98]] && |st.versioned| == 2
            && st.registrations == sys.storage.registrations && st.policy == Some(LOCAL)
            && st.latestCheckpoint.None? && next.catalog == Pair(1)
  {
    assert Pair(1)[1..] == [Family(1, OTHER_TABLE)];
    AssertIs(h, sys, OTHER_TABLE, [98], Family(1, OTHER_TABLE));
  }

  lemma EvolvesTwo()
    ensures FindTable(Pair(1), OTHER_TABLE) == Some(Family(1, OTHER_TABLE))
    ensures Evolved(Pair(1), OTHER_TABLE, Family(2, OTHER_TABLE)) == Ok(Pair(2))
  {
    EvolvedAt(Pair(1), OTHER_TABLE, Family(2, OTHER_TABLE), 1);
    assert Pair(1)[1 := Family(2, OTHER_TABLE)] == Pair(2);
    assert Pair(1)[1..] == [Family(1, OTHER_TABLE)];
  }

  lemma RewritesOne(tables: Tables)
    requires tables == map[Where(THIS_TABLE) := [97], Where(OTHER_TABLE) := [98]]
    ensures RewriteRows(tables, OTHER_TABLE, [Row(KEY, [98])]) == tables
  {
    assert [Row(KEY, [98])][..0] == [] && RewriteRows(tables, OTHER_TABLE, []) == tables;
  }

  lemma LandsTwo(h: Hash, st: Storage, rows: seq<Row>)
    requires st.policy == Some(LOCAL) && |st.versioned| == 2 && st.latestCheckpoint.None?
    requires rows == [Row(KEY, [98])] && RewriteRows(st.tables, OTHER_TABLE, rows) == st.tables
    ensures var out := LandEvolution(h, st, None, Family(1, OTHER_TABLE), Family(2, OTHER_TABLE), rows, Pair(2));
            out.result.Ok? && out.storage.tables == st.tables
            && out.storage.registrations == st.registrations[OTHER_TABLE := Family(2, OTHER_TABLE)]
  {
    var st' := PersistEvolution(h, st, Pair(2), Family(1, OTHER_TABLE), Family(2, OTHER_TABLE), rows);
    assert |st'.versioned| == 3 && st'.policy == st.policy && st'.latestCheckpoint.None?;
    assert Maintain(h, st', Pair(2), Sequence(st')) == Outcome(Ok(()), st');
  }

  lemma RegistersOther(h: Hash, st: Storage, rows: seq<Row>)
    requires CarryRows(st.tables, OTHER_TABLE, Declaring(2, OTHER_TABLE).priors[0],
                       TextKeys(st.tables, OTHER_TABLE)) == Ok(rows)
    ensures RegisterTable(h, st, Pair(1), None, Declaring(2, OTHER_TABLE)) ==
            LandEvolution(h, st, None, Family(1, OTHER_TABLE), Family(2, OTHER_TABLE), rows, Pair(2))
  {
    GenerationsDiffer();
    EvolvesTwo();
    var d := Declaring(2, OTHER_TABLE);
    assert StepFor(d, Family(1, OTHER_TABLE)) == Some(d.priors[0]);
  }

  lemma RegisteredOther(h: Hash, st: Storage, rows: seq<Row>)
    requires st.policy == Some(LOCAL) && |st.versioned| == 2 && st.latestCheckpoint.None?
    requires rows == [Row(KEY, [98])] && RewriteRows(st.tables, OTHER_TABLE, rows) == st.tables
    requires CarryRows(st.tables, OTHER_TABLE, Declaring(2, OTHER_TABLE).priors[0],
                       TextKeys(st.tables, OTHER_TABLE)) == Ok(rows)
    ensures var out := RegisterTable(h, st, Pair(1), None, Declaring(2, OTHER_TABLE));
            out.result.Ok? && out.storage.tables == st.tables
            && out.storage.registrations == st.registrations[OTHER_TABLE := Family(2, OTHER_TABLE)]
  {
    RegistersOther(h, st, rows);
    LandsTwo(h, st, rows);
  }

  lemma EvolvesIntoShared(h: Hash, st: Storage)
    requires st.policy == Some(LOCAL) && |st.versioned| == 2 && st.latestCheckpoint.None?
    requires st.tables == map[Where(THIS_TABLE) := [97], Where(OTHER_TABLE) := [98]]
    requires st.registrations == map[THIS_TABLE := Family(2, THIS_TABLE), OTHER_TABLE := Family(1, OTHER_TABLE)]
    ensures var out := RegisterTable(h, st, Pair(1), None, Declaring(2, OTHER_TABLE));
            && out.result.Ok? && !OneHome(out.storage.registrations)
            && Viewless(out.storage.tables, out.storage.registrations)
  {
    CarriesOne(st, OTHER_TABLE, [98], Declaring(2, OTHER_TABLE));
    RewritesOne(st.tables);
    RegisteredOther(h, st, [Row(KEY, [98])]);
    SharedClash(st.tables, st.registrations[OTHER_TABLE := Family(2, OTHER_TABLE)]);
  }

  /** An accepted evolution binds a second table to a version already bound. Both
      hold a row under one key, with different payloads, and from then on no view
      whatever agrees with the tables. */
  lemma SharedVersionWitness(h: Hash)
    ensures var sys := BothFilled(h);
            var out := RegisterTable(h, sys.storage, sys.catalog, None, Declaring(2, OTHER_TABLE));
            && OneHome(sys.storage.registrations) && out.result.Ok? && !OneHome(out.storage.registrations)
            && Viewless(out.storage.tables, out.storage.registrations)
  {
    GenerationsDiffer();
    BothFilledIs(h);
    EvolvesIntoShared(h, BothFilled(h).storage);
  }

  lemma SharedClash(tables: Tables, registrations: map<Name, FamilyIdentity>)
    requires tables == map[Where(THIS_TABLE) := [97], Where(OTHER_TABLE) := [98]]
    requires registrations == map[THIS_TABLE := Family(2, THIS_TABLE), OTHER_TABLE := Family(2, OTHER_TABLE)]
    ensures !OneHome(registrations) && Viewless(tables, registrations)
  {
    assert registrations[THIS_TABLE].Key() == registrations[OTHER_TABLE].Key();
    forall any, rows ensures !Agrees(any, tables, rows, registrations) {
      ClashHasNoView(tables, rows, registrations, Where(THIS_TABLE), Where(OTHER_TABLE));
    }
  }

  // ---- A group parked before its empty family evolves ----

  function ParkedOperation(): LogOperation {
    LogOperation(Assert, Family(1, THIS_TABLE), Some(Domain(KEY)), Record([97]))
  }

  function ParkedEntry(h: Hash): Entry {
    Seal(h, [115], StoreSchemaHash(h, [Family(1, THIS_TABLE)]), 1, 1, None, [ParkedOperation()])
  }

  function Empty(): Storage { EmptyStore(Some(LOCAL)).(registrations := map[THIS_TABLE := Family(1, THIS_TABLE)]) }

  function Build1(h: Hash, w: World): System { BeginStep(h, Bound(h, LOCAL, 1)) }
  function Build2(h: Hash, w: World): System { IssueCall(h, Build1(h, w), AssertIn(THIS_TABLE, [97])) }
  function ParkedSystem(h: Hash, w: World): System { ParkStep(Build2(h, w)) }

  lemma Build1Is(h: Hash, w: World)
    ensures var sys := Build1(h, w);
            && sys.storage == Empty() && sys.catalog == [Family(1, THIS_TABLE)]
            && sys.build == Some(Build(Engage(h, Empty(), [Family(1, THIS_TABLE)]), [Family(1, THIS_TABLE)]))
  {
    BoundIs(h, LOCAL, 1);
  }

  lemma StagesOne(h: Hash, s: Session)
    requires s == Engage(h, Empty(), [Family(1, THIS_TABLE)])
    ensures var staged := StagedCall(h, Empty(), [Family(1, THIS_TABLE)], s, AssertIn(THIS_TABLE, [97])).session;
            staged.entries == [ParkedEntry(h)] && staged.preImages == [] && staged.base == s.base
  {
    var write, prepared := Write(Assertion, THIS_TABLE, Domain(KEY), [97]), Prepared(ParkedOperation(), [97]);
    var tables: Tables := map[];
    assert StagedPrepareOne(tables, s, [Family(1, THIS_TABLE)], write) == Ok(prepared);
    assert [write][..0] == [] && StagedPrepare(tables, s, [Family(1, THIS_TABLE)], []) == Ok([]);
    Prepended(prepared);
    assert StagedPrepare(tables, s, [Family(1, THIS_TABLE)], [write]) == Ok([prepared]);
    BuffersOne(h, s, prepared);
  }

  lemma BuffersOne(h: Hash, s: Session, prepared: Prepared)
    requires s == Engage(h, Empty(), [Family(1, THIS_TABLE)]) && prepared == Prepared(ParkedOperation(), [97])
    ensures var staged := BufferPlan(h, s, [prepared]);
            staged.entries == [ParkedEntry(h)] && staged.preImages == [] && staged.base == s.base
  {
    assert OpsOf([prepared]) == [ParkedOperation()];
    assert [prepared][..0] == [] && PreImagesOf(0, []) == [];
    assert PreImagesOf(0, [prepared]) == [];
    Prepended(ParkedEntry(h));
  }

  /** A session that buffered the one assert. */
  predicate OneBuffered(h: Hash, build: Option<Build>) {
    && build.Some? && build.value.session.entries == [ParkedEntry(h)] && build.value.session.preImages == []
    && build.value.session.base == StagingBase(None, 0, 0, [])
  }

  lemma IssuesIntoBuild(h: Hash, sys: System, call: Call)
    requires sys.build.Some?
    ensures IssueCall(h, sys, call).storage == sys.storage && IssueCall(h, sys, call).catalog == sys.catalog
    ensures var staged := StagedCall(h, sys.storage, sys.catalog, sys.build.value.session, call).session;
            IssueCall(h, sys, call).build == Some(sys.build.value.(session := staged))
  {
  }

  lemma Build2Is(h: Hash, w: World)
    ensures Build2(h, w).storage == Empty() && Build2(h, w).catalog == [Family(1, THIS_TABLE)]
            && OneBuffered(h, Build2(h, w).build)
  {
    Build1Is(h, w);
    StagesOne(h, Build1(h, w).build.value.session);
    IssuesIntoBuild(h, Build1(h, w), AssertIn(THIS_TABLE, [97]));
  }

  lemma ParksOne(h: Hash, w: World, sys: System)
    requires sys.storage == Empty() && OneBuffered(h, sys.build)
    ensures ParkStep(sys) ==
              sys.(storage := Empty().(slot := Some(StagedGroup([ParkedEntry(h)], []))), build := None)
  {
  }

  lemma ParkedIs(h: Hash, w: World)
    ensures var sys := ParkedSystem(h, w);
            && sys.storage == Empty().(slot := Some(StagedGroup([ParkedEntry(h)], [])))
            && sys.catalog == [Family(1, THIS_TABLE)] && sys.build.None?
  {
    Build2Is(h, w);
    ParksOne(h, w, Build2(h, w));
  }

  function MovedSystem(h: Hash, w: World): System { RegisterFamily(h, ParkedSystem(h, w), Declaring(2, THIS_TABLE)) }
  function LandedSystem(h: Hash, w: World): System { MaterializeStep(h, w, MovedSystem(h, w)) }

  lemma NoTexts()
    ensures TextKeys(map[], THIS_TABLE) == []
  {
    var tables: Tables := map[];
    assert forall t :: t in TextKeys(tables, THIS_TABLE) <==> Coord(THIS_TABLE, Domain(t)) in tables;
    FirstIsMember(TextKeys(tables, THIS_TABLE));
  }

  lemma FirstIsMember<T>(s: seq<T>)
    ensures s == [] || s[0] in s
  {
  }

  lemma EvolvesEmpty(h: Hash, st: Storage)
    requires st.tables == map[]
    ensures RegisterTable(h, st, [Family(1, THIS_TABLE)], None, Declaring(2, THIS_TABLE)) ==
            Registered(Ok(()), st.(registrations := st.registrations[THIS_TABLE := Family(2, THIS_TABLE)]),
                       [Family(2, THIS_TABLE)])
  {
    GenerationsDiffer();
    var d, stored := Declaring(2, THIS_TABLE), Family(1, THIS_TABLE);
    assert StepFor(d, stored) == Some(d.priors[0]);
    EvolvedOne(stored, Family(2, THIS_TABLE));
    NoTexts();
  }

  lemma RegistersAs(h: Hash, sys: System, d: Descriptor)
    ensures var out, next := RegisterTable(h, sys.storage, sys.catalog, EngagedAt(sys), d), RegisterFamily(h, sys, d);
            next.storage == out.storage && next.catalog == out.catalog && next.build == sys.build
  {
  }

  lemma MovedIs(h: Hash, w: World)
    ensures var sys := MovedSystem(h, w);
            && sys.storage ==
                 Empty().(slot := Some(StagedGroup([ParkedEntry(h)], [])),
                          registrations := map[THIS_TABLE := Family(2, THIS_TABLE)])
            && sys.catalog == [Family(2, THIS_TABLE)] && sys.build.None?
  {
    ParkedIs(h, w);
    MovesParked(h, ParkedSystem(h, w));
  }

  lemma MovesParked(h: Hash, sys: System)
    requires sys.storage == Empty().(slot := Some(StagedGroup([ParkedEntry(h)], [])))
    requires sys.catalog == [Family(1, THIS_TABLE)] && sys.build.None?
    ensures var next := RegisterFamily(h, sys, Declaring(2, THIS_TABLE));
            && next.storage == sys.storage.(registrations := map[THIS_TABLE := Family(2, THIS_TABLE)])
            && next.catalog == [Family(2, THIS_TABLE)] && next.build.None?
  {
    EvolvesEmpty(h, sys.storage);
    RegistersAs(h, sys, Declaring(2, THIS_TABLE));
  }

  lemma AllOpsOne(h: Hash)
    ensures AllOps([ParkedEntry(h)]) == [ParkedOperation()]
  {
    assert [ParkedEntry(h)][..0] == [] && AllOps([]) == [];
    Prepended(ParkedOperation());
  }

  lemma ChecksOne(h: Hash, st: Storage)
    requires st.slot == Some(StagedGroup([ParkedEntry(h)], [])) && st.head.None? && Sequence(st) == 0
             && Snapshot(st) == 0
    ensures CheckGroup(h, st, false) == Ok(StagedGroup([ParkedEntry(h)], []))
  {
    assert [ParkedEntry(h)][..0] == [] && VerifyGroup(h, [], None, 0, 0) == Ok(());
  }

  lemma LandsOne(h: Hash, directory: Directory)
    requires THIS_TABLE !in directory
    ensures MaterializeOps(directory, map[], AllOps([ParkedEntry(h)])) == Ok(map[Where(THIS_TABLE) := [97]])
  {
    AllOpsOne(h);
    assert [ParkedOperation()][..0] == [] && MaterializeOps(directory, map[], []) == Ok(map[]);
  }

  lemma MaterializesOne(h: Hash, st: Storage, directory: Directory)
    requires st.slot == Some(StagedGroup([ParkedEntry(h)], [])) && st.head.None? && Sequence(st) == 0
             && Snapshot(st) == 0
    requires st.tables == map[] && THIS_TABLE !in directory
    ensures var m := Materialize(h, st, directory, false);
            && m.result.Ok?
            && m.storage == LandGroup(st, [ParkedEntry(h)], map[Where(THIS_TABLE) := [97]])
  {
    ChecksOne(h, st);
    LandsOne(h, directory);
  }

  lemma FoldsOne(h: Hash)
    ensures Fold(h, [], [ParkedEntry(h)], None).Ok?
    ensures Fold(h, [], [ParkedEntry(h)], None).value.rows == map[ViewKey([70], Generation(1), Domain(KEY)) := [97]]
  {
    assert [ParkedEntry(h)][..0] == [] && FoldEntries(h, EMPTY_VIEW, [], None) == Ok(EMPTY_VIEW);
    assert [ParkedOperation()][..0] == [] && ApplyOperations(EMPTY_VIEW, []) == Ok(EMPTY_VIEW);
    assert ApplyOperations(EMPTY_VIEW, [ParkedOperation()]) == ApplyOperation(EMPTY_VIEW, ParkedOperation());
  }

  lemma LandedIs(h: Hash, w: World)
    requires THIS_TABLE !in w.identified
    ensures Materialize(h, MovedSystem(h, w).storage, w.identified, false).result.Ok?
    ensures var st := LandedSystem(h, w).storage;
            && st.tables == map[Where(THIS_TABLE) := [97]]
               && st.registrations == map[THIS_TABLE := Family(2, THIS_TABLE)]
            && st.versioned == [ParkedEntry(h)] && st.latestCheckpoint.None? && Complete(st)
  {
    MovedIs(h, w);
    MaterializesOne(h, MovedSystem(h, w).storage, w.identified);
    GroupLands(h, MovedSystem(h, w).storage);
    MaterializeIs(h, w, MovedSystem(h, w));
  }

  lemma MaterializeIs(h: Hash, w: World, sys: System)
    ensures MaterializeStep(h, w, sys).storage ==
              Materialize(h, sys.storage, w.identified, sys.build.Some?).storage
  {
  }

  lemma GroupLands(h: Hash, st: Storage)
    requires st.versioned == [] && st.latestCheckpoint.None? && Complete(st)
    ensures var st' := LandGroup(st, [ParkedEntry(h)], map[Where(THIS_TABLE) := [97]]);
            && st'.tables == map[Where(THIS_TABLE) := [97]] && st'.registrations == st.registrations
            && st'.versioned == [ParkedEntry(h)] && st'.latestCheckpoint.None? && Complete(st')
  {
    assert [ParkedEntry(h)][..0] == [] && AppendEntries(st, []) == st;
    assert AppendEntries(st, [ParkedEntry(h)]) == AppendEntry(st, ParkedEntry(h));
    Prepended(ParkedEntry(h));
  }

  /** A family with no rows evolves while a group that writes it is parked. The
      group is still accepted, and lands a row no view of the log agrees with: the
      store has left its invariant in every world. */
  lemma ParkedAcrossEvolutionWitness(h: Hash, w: World)
    requires THIS_TABLE !in w.identified
    ensures Materialize(h, MovedSystem(h, w).storage, w.identified, false).result.Ok?
    ensures var st := LandedSystem(h, w).storage;
            && CurrentView(h, st).Ok?
            && (forall any :: !Agrees(any, st.tables, CurrentView(h, st).value.rows, st.registrations))
            && (forall any :: !Inv(h, any, st, LandedSystem(h, w).catalog))
  {
    LandedIs(h, w);
    ReadsRetired(h, LandedSystem(h, w).storage);
  }

  lemma ReadsRetired(h: Hash, st: Storage)
    requires st.tables == map[Where(THIS_TABLE) := [97]] && st.registrations == map[THIS_TABLE := Family(2, THIS_TABLE)]
    requires st.versioned == [ParkedEntry(h)] && st.latestCheckpoint.None? && Complete(st)
    ensures CurrentView(h, st).Ok?
    ensures forall any :: !Agrees(any, st.tables, CurrentView(h, st).value.rows, st.registrations)
    ensures forall any, catalog :: !Inv(h, any, st, catalog)
  {
    GenerationsDiffer();
    FoldsOne(h);
    FromAppend([], ParkedEntry(h), EntryRowSequence, 1);
    Prepended(ParkedEntry(h));
    assert KeyAt(st.registrations, Where(THIS_TABLE)) == ViewKey([70], Generation(2), Domain(KEY));
    assert Where(THIS_TABLE) in st.tables;
  }
}
