/**
 * The link table of the relational store, abstracted: rows keyed by a
 * store-assigned id, a unique index on `shortAlias` and a unique index on the
 * nullable `alias` column.  `Db` is the table's value; `LinkTable` is the
 * in-memory table the service updates in place.
 */
module LinkStore {
  import opened Wrappers

  /** The store's error code for a unique-constraint violation. */
  const UniqueViolationCode: string := "P2002"

  /** One row of the link table. */
  datatype Link = Link(
    id: nat,
    originalUrl: string,
    shortAlias: string,
    alias: Option<string>,
    expiresAt: Option<int>,
    clickCount: nat)

  /** The columns a caller supplies when inserting a row; the store assigns `id`. */
  datatype LinkData = LinkData(
    originalUrl: string,
    shortAlias: string,
    alias: Option<string>,
    expiresAt: Option<int>,
    clickCount: nat)

  /** An error the store reports, identified by its code. */
  datatype StoreError = StoreError(code: string)

  /** The value of the table: its rows by id, and the id the next insert receives. */
  datatype Db = Db(rows: map<nat, Link>, nextId: nat)

  /** Each row sits under its own id, and every id is below the next one to assign. */
  ghost predicate WellKeyed(db: Db)
  {
    forall id :: id in db.rows ==> db.rows[id].id == id && id < db.nextId
  }

  /** The two unique indexes hold: no two rows share a `shortAlias`, nor a non-null `alias`. */
  ghost predicate KeysUnique(rows: map<nat, Link>)
  {
    forall i, j :: i in rows && j in rows && i != j ==>
      rows[i].shortAlias != rows[j].shortAlias &&
      (rows[i].alias.Some? ==> rows[i].alias != rows[j].alias)
  }

  /** The table invariant. */
  ghost predicate Consistent(db: Db)
  {
    WellKeyed(db) && KeysUnique(db.rows)
  }

  ghost predicate ShortAliasUsed(rows: map<nat, Link>, s: string)
  {
    exists id :: id in rows && rows[id].shortAlias == s
  }

  ghost predicate AliasUsed(rows: map<nat, Link>, a: string)
  {
    exists id :: id in rows && rows[id].alias == Some(a)
  }

  /** Inserting `data` would break one of the unique indexes. */
  ghost predicate ViolatesUnique(rows: map<nat, Link>, data: LinkData)
  {
    ShortAliasUsed(rows, data.shortAlias) || (data.alias.Some? && AliasUsed(rows, data.alias.value))
  }

  /** Find by the unique `shortAlias` key. */
  ghost function FindByShortAlias(db: Db, s: string): (r: Option<Link>)
    requires Consistent(db)
    ensures r.Some? <==> ShortAliasUsed(db.rows, s)
    ensures r.Some? ==> r.value.id in db.rows && db.rows[r.value.id] == r.value && r.value.shortAlias == s
    ensures forall id :: id in db.rows && db.rows[id].shortAlias == s ==> r == Some(db.rows[id])
  {
    if ShortAliasUsed(db.rows, s) then
      var id :| id in db.rows && db.rows[id].shortAlias == s;
      Some(db.rows[id])
    else
      None
  }

  /** Find by the unique `alias` key. */
  ghost function FindByAlias(db: Db, a: string): (r: Option<Link>)
    requires Consistent(db)
    ensures r.Some? <==> AliasUsed(db.rows, a)
    ensures r.Some? ==> r.value.id in db.rows && db.rows[r.value.id] == r.value && r.value.alias == Some(a)
    ensures forall id :: id in db.rows && db.rows[id].alias == Some(a) ==> r == Some(db.rows[id])
  {
    if AliasUsed(db.rows, a) then
      var id :| id in db.rows && db.rows[id].alias == Some(a);
      Some(db.rows[id])
    else
      None
  }

  /** The row an insert of `data` stores under `id`. */
  function RowOf(id: nat, data: LinkData): Link
  {
    Link(id, data.originalUrl, data.shortAlias, data.alias, data.expiresAt, data.clickCount)
  }

  /**
   * Insert a row.  `fault` is whatever else the store may report (a lost
   * connection, say); otherwise the insert fails with a unique-constraint
   * violation exactly when a unique index would break, and a failed insert
   * leaves the table as it was.
   */
  ghost function Insert(db: Db, data: LinkData, fault: Option<StoreError>): (out: (Db, Result<Link, StoreError>))
    ensures out.1.Failure? ==> out.0 == db
    ensures fault.None? ==> (out.1.Failure? <==> ViolatesUnique(db.rows, data))
    ensures fault.None? && out.1.Failure? ==> out.1.error.code == UniqueViolationCode
    ensures fault.Some? ==> out.1 == Failure(fault.value)
    ensures out.1.Success? ==>
      out.1.value == RowOf(db.nextId, data) &&
      out.0 == Db(db.rows[db.nextId := out.1.value], db.nextId + 1)
  {
    if fault.Some? then (db, Failure(fault.value))
    else if ViolatesUnique(db.rows, data) then (db, Failure(StoreError(UniqueViolationCode)))
    else
      var link := RowOf(db.nextId, data);
      (Db(db.rows[db.nextId := link], db.nextId + 1), Success(link))
  }

  /** `update({ where: { id }, data: { clickCount: { increment: 1 } } })`. */
  ghost function IncrementClickCount(db: Db, id: nat): (db': Db)
    requires id in db.rows
    ensures id in db'.rows && db'.rows[id].clickCount == db.rows[id].clickCount + 1
    ensures db'.rows[id] == db.rows[id].(clickCount := db'.rows[id].clickCount)
    ensures db'.nextId == db.nextId && db'.rows.Keys == db.rows.Keys
    ensures forall other :: other in db.rows && other != id ==> db'.rows[other] == db.rows[other]
  {
    var link := db.rows[id];
    Db(db.rows[id := link.(clickCount := link.clickCount + 1)], db.nextId)
  }

  /** A successful insert keeps the table invariant and adds a row no existing row collides with. */
  lemma InsertPreservesConsistent(db: Db, data: LinkData, fault: Option<StoreError>)
    requires Consistent(db)
    ensures Consistent(Insert(db, data, fault).0)
  {
    var (db', r) := Insert(db, data, fault);
    if r.Success? {
      var link := r.value;
      assert db.nextId !in db.rows;
      forall i, j | i in db'.rows && j in db'.rows && i != j
        ensures db'.rows[i].shortAlias != db'.rows[j].shortAlias
        ensures db'.rows[i].alias.Some? ==> db'.rows[i].alias != db'.rows[j].alias
      {
        if i == db.nextId {
          assert db'.rows[j] == db.rows[j];
          assert !ShortAliasUsed(db.rows, data.shortAlias);
          assert data.alias.Some? ==> !AliasUsed(db.rows, data.alias.value);
        } else if j == db.nextId {
          assert db'.rows[i] == db.rows[i];
          assert !ShortAliasUsed(db.rows, data.shortAlias);
          assert data.alias.Some? ==> !AliasUsed(db.rows, data.alias.value);
        }
      }
    }
  }

  /** Incrementing a counter changes no key, so the table invariant survives. */
  lemma IncrementPreservesConsistent(db: Db, id: nat)
    requires Consistent(db) && id in db.rows
    ensures Consistent(IncrementClickCount(db, id))
  {
  }

  /**
   * The in-memory link table.  Besides the rows it keeps the two unique
   * indexes, each mapping a key to the id of the row that holds it.
   */
  class LinkTable {
    var rows: map<nat, Link>
    var nextId: nat
    var shortAliasIndex: map<string, nat>
    var aliasIndex: map<string, nat>

    /** The table's value. */
    function Model(): Db
      reads this
    {
      Db(rows, nextId)
    }

    /** The indexes describe the rows exactly. */
    ghost predicate Valid()
      reads this
    {
      WellKeyed(Model()) &&
      (forall id :: id in rows ==>
        rows[id].shortAlias in shortAliasIndex && shortAliasIndex[rows[id].shortAlias] == id) &&
      (forall s :: s in shortAliasIndex ==>
        shortAliasIndex[s] in rows && rows[shortAliasIndex[s]].shortAlias == s) &&
      (forall id :: id in rows && rows[id].alias.Some? ==>
        rows[id].alias.value in aliasIndex && aliasIndex[rows[id].alias.value] == id) &&
      (forall a :: a in aliasIndex ==>
        aliasIndex[a] in rows && rows[aliasIndex[a]].alias == Some(a))
    }

    /** Index maintenance is what enforces uniqueness: a valid table satisfies the table invariant. */
    lemma ValidIsConsistent()
      requires Valid()
      ensures Consistent(Model())
    {
      forall i, j | i in rows && j in rows && i != j
        ensures rows[i].shortAlias != rows[j].shortAlias
        ensures rows[i].alias.Some? ==> rows[i].alias != rows[j].alias
      {
        assert shortAliasIndex[rows[i].shortAlias] == i;
        assert shortAliasIndex[rows[j].shortAlias] == j;
        if rows[i].alias.Some? && rows[j].alias.Some? {
          assert aliasIndex[rows[i].alias.value] == i;
          assert aliasIndex[rows[j].alias.value] == j;
        }
      }
    }

    /** An empty table. */
    constructor ()
      ensures Valid() && Model() == Db(map[], 0)
    {
      rows, nextId := map[], 0;
      shortAliasIndex, aliasIndex := map[], map[];
    }

    /** `findUnique({ where: { shortAlias } })`. */
    method FindUniqueByShortAlias(s: string) returns (r: Option<Link>)
      requires Valid()
      ensures Consistent(Model()) && r == FindByShortAlias(Model(), s)
    {
      ValidIsConsistent();
      if s in shortAliasIndex {
        r := Some(rows[shortAliasIndex[s]]);
      } else {
        r := None;
      }
    }

    /** `findUnique({ where: { alias } })`. */
    method FindUniqueByAlias(a: string) returns (r: Option<Link>)
      requires Valid()
      ensures Consistent(Model()) && r == FindByAlias(Model(), a)
    {
      ValidIsConsistent();
      if a in aliasIndex {
        r := Some(rows[aliasIndex[a]]);
      } else {
        r := None;
      }
    }

    /** `create({ data })`: insert a row through both unique indexes. */
    method Create(data: LinkData, fault: Option<StoreError>) returns (r: Result<Link, StoreError>)
      requires Valid()
      modifies this
      ensures Valid()
      ensures (Model(), r) == Insert(old(Model()), data, fault)
    {
      if fault.Some? {
        return Failure(fault.value);
      }
      if data.shortAlias in shortAliasIndex || (data.alias.Some? && data.alias.value in aliasIndex) {
        assert data.shortAlias in shortAliasIndex ==> rows[shortAliasIndex[data.shortAlias]].shortAlias == data.shortAlias;
        assert data.alias.Some? && data.alias.value in aliasIndex ==> rows[aliasIndex[data.alias.value]].alias == data.alias;
        return Failure(StoreError(UniqueViolationCode));
      }
      assert !ViolatesUnique(rows, data);
      var link := RowOf(nextId, data);
      rows := rows[nextId := link];
      shortAliasIndex := shortAliasIndex[data.shortAlias := nextId];
      if data.alias.Some? {
        aliasIndex := aliasIndex[data.alias.value := nextId];
      }
      nextId := nextId + 1;
      r := Success(link);
    }

    /** `update({ where: { id }, data: { clickCount: { increment: 1 } } })`, returning the updated row. */
    method IncrementClickCountOf(id: nat) returns (updated: Link)
      requires Valid() && id in rows
      modifies this
      ensures Valid()
      ensures Model() == IncrementClickCount(old(Model()), id) && updated == rows[id]
    {
      var link := rows[id];
      updated := link.(clickCount := link.clickCount + 1);
      rows := rows[id := updated];
    }
  }
}
