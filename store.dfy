/**
 * The user table behind `UserRepository` (a Spring Data JPA interface), as
 * the three operations the service calls: `findAll`, `findByEmail` and `save`
 * (insert, or replace the row with the same id).
 */
module Store {
  import opened Common
  import opened Entity

  /** The two keys the service looks rows up by: the email, and the primary key. */
  datatype Key = ByEmail(email: string) | ById(id: Option<string>)

  /** Whether `row` carries `key`. */
  predicate HasKey(row: UserEntity, key: Key)
  {
    match key
    case ByEmail(email) => row.email == email
    case ById(id) => row.id == id
  }

  /** Position of the first row that carries `key`, or `|rows|` when none does. */
  function IndexOf(rows: seq<UserEntity>, key: Key): (k: nat)
    ensures k <= |rows|
    ensures k < |rows| ==> HasKey(rows[k], key)
    ensures forall i :: 0 <= i < k ==> !HasKey(rows[i], key)
  {
    if rows == [] then 0
    else if HasKey(rows[0], key) then 0
    else 1 + IndexOf(rows[1..], key)
  }

  /** `findByEmail`: the row with this email, if there is one. */
  function Lookup(rows: seq<UserEntity>, email: string): (r: Option<UserEntity>)
    ensures r.Some? <==> exists i :: 0 <= i < |rows| && rows[i].email == email
    ensures r.Some? ==> r.value in rows && r.value.email == email
  {
    var k := IndexOf(rows, ByEmail(email));
    if k < |rows| then Some(rows[k]) else None
  }

  /**
   * `save`: the row with the entity's id is replaced in place, or the entity is
   * appended when no row has its id.
   */
  function Upsert(rows: seq<UserEntity>, e: UserEntity): (r: seq<UserEntity>)
    ensures var k := IndexOf(rows, ById(e.id));
            && (k < |rows| ==> r == rows[k := e])
            && (k == |rows| ==> r == rows + [e])
  {
    if rows == [] then [e]
    else if rows[0].id == e.id then [e] + rows[1..]
    else [rows[0]] + Upsert(rows[1..], e)
  }

  /** Every row has an id and a phone list, as rows read back from the table do. */
  predicate RowsComplete(rows: seq<UserEntity>)
  {
    forall i :: 0 <= i < |rows| ==> rows[i].id.Some? && rows[i].phones.Some?
  }

  /**
   * What the table keeps true: every row has an id and a phone list, no two
   * rows share an id (the primary key), and no two rows share an email (so
   * `findByEmail` has at most one answer).
   */
  ghost predicate StoreValid(rows: seq<UserEntity>)
  {
    && RowsComplete(rows)
    && (forall i, j :: 0 <= i < j < |rows| ==> rows[i].id != rows[j].id)
    && (forall i, j :: 0 <= i < j < |rows| ==> rows[i].email != rows[j].email)
  }

  /**
   * Saving a complete entity keeps the table valid as long as its email is
   * either new or already belongs to the row it replaces.
   */
  lemma UpsertKeepsValid(rows: seq<UserEntity>, e: UserEntity)
    requires StoreValid(rows)
    requires e.id.Some? && e.phones.Some?
    requires Lookup(rows, e.email).None? || Lookup(rows, e.email).value.id == e.id
    ensures StoreValid(Upsert(rows, e))
  {
    var k := IndexOf(rows, ById(e.id));
    var m := IndexOf(rows, ByEmail(e.email));
    if k < |rows| {
      assert m < |rows| ==> m == k;
    }
  }

  /** The repository object: the table's rows, in the order `findAll` returns them. */
  class UserRepository {
    var rows: seq<UserEntity>

    constructor (rows0: seq<UserEntity>)
      ensures rows == rows0
    {
      rows := rows0;
    }

    /** `findAll`: every row, in table order. */
    method FindAll() returns (r: seq<UserEntity>)
      ensures r == rows
    {
      r := rows;
    }

    /** `findByEmail`. */
    method FindByEmail(email: string) returns (r: Option<UserEntity>)
      ensures r.Some? <==> exists i :: 0 <= i < |rows| && rows[i].email == email
      ensures r == Lookup(rows, email)
    {
      r := Lookup(rows, email);
    }

    /** `save`: upsert by id; the saved entity is handed back unchanged. */
    method Save(e: UserEntity) returns (saved: UserEntity)
      modifies this
      ensures rows == Upsert(old(rows), e)
      ensures saved == e
    {
      rows := Upsert(rows, e);
      saved := e;
    }
  }
}
