// The registered family inventory.
module Catalogs {
  import opened ByteStrings
  import opened Errors
  import opened Versioning
  import opened CanonicalViews

  /** The registration bound at a table, if any. */
  function FindTable(registrations: seq<FamilyIdentity>, table: Name): Option<FamilyIdentity> {
    if registrations == [] then None
    else if registrations[0].table == table then Some(registrations[0])
    else FindTable(registrations[1..], table)
  }

  function RegisteredFamily(registrations: seq<FamilyIdentity>, table: Name): Result<FamilyIdentity> {
    match FindTable(registrations, table)
    case Some(id) => Ok(id)
    case None => Err(TableNotRegistered(table))
  }

  function Inserted(registrations: seq<FamilyIdentity>, id: FamilyIdentity): Result<seq<FamilyIdentity>> {
    if FindTable(registrations, id.table).Some? then Err(TableAlreadyRegistered(id.table))
    else Ok(registrations + [id])
  }

  /** The first registration at the table, replaced. */
  function Evolved(registrations: seq<FamilyIdentity>, table: Name, id: FamilyIdentity): Result<seq<FamilyIdentity>> {
    if registrations == [] then Err(TableNotRegistered(table))
    else if registrations[0].table == table then Ok([id] + registrations[1..])
    else
      var rest := Evolved(registrations[1..], table, id);
      if rest.Err? then rest else Ok([registrations[0]] + rest.value)
  }

  datatype RegistrationState = Existing | New

  /** Validate a declaration against the catalog. */
  function FamilyRegistrationState(registrations: seq<FamilyIdentity>, id: FamilyIdentity): Result<RegistrationState> {
    match FindTable(registrations, id.table)
    case Some(stored) => if stored != id then Err(FamilyIdentityMismatch(id.table)) else Ok(Existing)
    case None =>
      match FindIdentity(registrations, id.Key())
      case Some(bound) => Err(FamilyAlreadyBound(id.family, bound.table, id.table))
      case None => Ok(New)
  }

  class Catalog {
    var registrations: seq<FamilyIdentity>

    constructor (registrations: seq<FamilyIdentity>)
      ensures this.registrations == registrations
    {
      this.registrations := registrations;
    }

    method Insert(id: FamilyIdentity) returns (r: Result<()>)
      modifies this
      ensures r.Ok? ==> Inserted(old(registrations), id) == Ok(registrations)
      ensures r.Err? ==> Inserted(old(registrations), id) == Err(r.error) && registrations == old(registrations)
    {
      if FindTable(registrations, id.table).Some? {
        return Err(TableAlreadyRegistered(id.table));
      }
      registrations := registrations + [id];
      return Ok(());
    }

    method Evolve(table: Name, id: FamilyIdentity) returns (r: Result<()>)
      modifies this
      ensures r.Ok? ==> Evolved(old(registrations), table, id) == Ok(registrations)
      ensures r.Err? ==> Evolved(old(registrations), table, id) == Err(r.error) && registrations == old(registrations)
    {
      for i := 0 to |registrations|
        invariant registrations == old(registrations)
        invariant forall k :: 0 <= k < i ==> registrations[k].table != table
      {
        if registrations[i].table == table {
          EvolvedAt(registrations, table, id, i);
          registrations := registrations[i := id];
          return Ok(());
        }
      }
      EvolvedAt(registrations, table, id, |registrations|);
      return Err(TableNotRegistered(table));
    }
  }

  /** Evolving replaces the first registration at the table and nothing else. */
  lemma {:induction false} EvolvedAt(registrations: seq<FamilyIdentity>, table: Name, id: FamilyIdentity, n: nat)
    requires n <= |registrations| && forall k :: 0 <= k < n ==> registrations[k].table != table
    requires n < |registrations| ==> registrations[n].table == table
    ensures Evolved(registrations, table, id) ==
            if n < |registrations| then Ok(registrations[n := id]) else Err(TableNotRegistered(table))
  {
    if n > 0 {
      EvolvedAt(registrations[1..], table, id, n - 1);
      if n < |registrations| {
        assert registrations[n := id] == [registrations[0]] + registrations[1..][n - 1 := id];
      }
    } else if registrations != [] {
      assert registrations[0 := id] == [id] + registrations[1..];
    }
  }

  // ---- The in-memory inventory and the durable rows ----

  function Lookup(rows: map<Name, FamilyIdentity>, table: Name): Option<FamilyIdentity> {
    if table in rows then Some(rows[table]) else None
  }

  /** The in-memory vector answers every table lookup as the durable rows do. */
  ghost predicate Lists(registrations: seq<FamilyIdentity>, rows: map<Name, FamilyIdentity>) {
    forall t :: FindTable(registrations, t) == Lookup(rows, t)
  }

  lemma {:induction false} FindTableNamesIt(registrations: seq<FamilyIdentity>, table: Name)
    ensures FindTable(registrations, table).Some? ==> FindTable(registrations, table).value.table == table
    ensures FindTable(registrations, table).Some? ==> FindTable(registrations, table).value in registrations
  {
    if registrations != [] { FindTableNamesIt(registrations[1..], table); }
  }

  lemma {:induction false} FindTableAppend(registrations: seq<FamilyIdentity>, id: FamilyIdentity, table: Name)
    ensures FindTable(registrations + [id], table) ==
            if FindTable(registrations, table).Some? then FindTable(registrations, table)
            else if id.table == table then Some(id) else None
  {
    if registrations != [] {
      assert (registrations + [id])[1..] == registrations[1..] + [id];
      FindTableAppend(registrations[1..], id, table);
    } else {
      assert FindTable([id][1..], table) == None;
    }
  }

  lemma {:induction false} FindTableEvolved(registrations: seq<FamilyIdentity>, at: Name, id: FamilyIdentity,
                                            table: Name)
    requires id.table == at && FindTable(registrations, at).Some?
    ensures Evolved(registrations, at, id).Ok?
    ensures FindTable(Evolved(registrations, at, id).value, table) ==
            if table == at then Some(id) else FindTable(registrations, table)
  {
    if registrations[0].table != at { FindTableEvolved(registrations[1..], at, id, table); }
  }

  lemma {:induction false} FindIdentityAbsent(registrations: seq<FamilyIdentity>, fk: FamilyKey)
    requires FindIdentity(registrations, fk).None?
    ensures forall id :: id in registrations ==> id.Key() != fk
  {
    if registrations != [] { FindIdentityAbsent(registrations[1..], fk); }
  }

  /** The inventory an open reads back: the durable rows in table-name order. */
  function CatalogRows(rows: map<Name, FamilyIdentity>): seq<FamilyIdentity> {
    LexOrder();
    RowsAt(rows, InOrder(rows.Keys, Lex))
  }

  function RowsAt(rows: map<Name, FamilyIdentity>, names: seq<Name>): seq<FamilyIdentity>
    requires forall n :: n in names ==> n in rows
  {
    seq(|names|, i requires 0 <= i < |names| => rows[names[i]])
  }

  lemma {:induction false} RowsAtFind(rows: map<Name, FamilyIdentity>, names: seq<Name>, table: Name)
    requires forall n :: n in names ==> n in rows
    requires forall n :: n in rows ==> rows[n].table == n
    ensures FindTable(RowsAt(rows, names), table) == if table in names then Some(rows[table]) else None
  {
    if names != [] {
      assert names[0] in names;
      assert RowsAt(rows, names)[1..] == RowsAt(rows, names[1..]);
      RowsAtFind(rows, names[1..], table);
    }
  }

  /** Reopening answers every lookup as before, whatever order it lists. */
  lemma ReloadedLists(rows: map<Name, FamilyIdentity>)
    requires forall n :: n in rows ==> rows[n].table == n
    ensures Lists(CatalogRows(rows), rows)
  {
    LexOrder();
    forall t ensures FindTable(CatalogRows(rows), t) == Lookup(rows, t) {
      RowsAtFind(rows, InOrder(rows.Keys, Lex), t);
    }
  }
}
