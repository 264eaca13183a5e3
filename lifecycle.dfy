/**
 * What the three operations of `UserService` promise, alone and in sequence:
 * the fields a successful registration or update answers with and stores, the
 * table invariant both keep, and what a later call sees.
 */
module Lifecycle {
  import opened Common
  import opened Model
  import opened Entity
  import opened Response
  import opened Mapper
  import opened Validators
  import opened Store
  import opened Request
  import opened Service

  // ---- the table after a save ----

  /** After saving an entity whose email was not stored, looking the email up finds that entity. */
  lemma LookupAfterUpsert(rows: seq<UserEntity>, e: UserEntity)
    requires Lookup(rows, e.email).None?
    ensures Lookup(Upsert(rows, e), e.email) == Some(e)
  {
    var k := IndexOf(rows, ById(e.id));
    var r := Upsert(rows, e);
    var at := if k < |rows| then k else |rows|;
    assert r[at] == e;
    forall i | 0 <= i < at ensures r[i].email != e.email {
      assert r[i] == rows[i];
    }
    assert IndexOf(r, ByEmail(e.email)) == at;
  }

  /** In a valid table the row found by email is the one its own id finds. */
  lemma IdOfFoundRow(rows: seq<UserEntity>, email: string)
    requires StoreValid(rows)
    requires Lookup(rows, email).Some?
    ensures IndexOf(rows, ById(Lookup(rows, email).value.id)) == IndexOf(rows, ByEmail(email))
  {
    var k := IndexOf(rows, ByEmail(email));
    var j := IndexOf(rows, ById(rows[k].id));
    assert j <= k;
    assert rows[j].id == rows[k].id;
  }

  /** The listing of a table that gains one row at its end gains that row's response at its end. */
  lemma ListAppend(rows: seq<UserEntity>, e: UserEntity)
    requires RowsComplete(rows) && e.id.Some? && e.phones.Some?
    ensures RowsComplete(rows + [e])
    ensures List(rows + [e]) == List(rows) + [Shape(ToUserModel(e))]
  {
    var grown := rows + [e];
    assert forall i :: 0 <= i < |rows| ==> grown[i] == rows[i];
    assert List(grown)[|rows|] == Shape(ToUserModel(grown[|rows|]));
  }

  // ---- saveUser ----

  /**
   * A successful registration answers with the generated id and token, the
   * encoded password, today as the creation date, the supplied last login or
   * else today, the supplied modification date, the request's name and email,
   * the active flag set, and one phone per input phone, in order, whose country
   * code is its city code.
   */
  lemma CreateResponse(rows: seq<UserEntity>, encode: string -> string, user: User,
                       today: Date, freshId: string, freshToken: string)
    requires Create(rows, encode, user, today, freshId, freshToken).response.Ok?
    ensures user.phones.Some?
    ensures var r := Create(rows, encode, user, today, freshId, freshToken).response.value;
            && r.id == freshId && r.token == Some(freshToken)
            && r.password == encode(user.password)
            && r.created == Some(today)
            && r.lastLogin == (if user.lastLogin.Some? then user.lastLogin else Some(today))
            && r.modified == user.modified
            && r.name == user.name && r.email == user.email
            && r.isActive
            && |r.phones| == |user.phones.value|
            && forall i :: 0 <= i < |r.phones| ==>
                 r.phones[i] == PhoneResponseDto(user.phones.value[i].number,
                                                 user.phones.value[i].citycode,
                                                 user.phones.value[i].citycode)
  {
    var e := NewRecord(user, encode, today, freshId, freshToken);
    var m := ToUserModel(e);
    var r := Shape(m);
    forall i | 0 <= i < |r.phones|
      ensures r.phones[i] == PhoneResponseDto(user.phones.value[i].number,
                                              user.phones.value[i].citycode,
                                              user.phones.value[i].citycode)
    {
      assert r.phones[i] == PhoneResponse(m.phones.value[i]);
    }
  }

  /**
   * What a successful registration stores: a row with the generated id and
   * token, the encoded password, today as creation date, the last login
   * defaulted to today, the flag TRUE exactly when the request left it null,
   * and one phone entity per input phone, in order, linked to the new id. It is
   * appended unless a row already has the generated id, and then replaces it;
   * looking the email up afterwards finds it.
   */
  lemma CreateStores(rows: seq<UserEntity>, encode: string -> string, user: User,
                     today: Date, freshId: string, freshToken: string)
    requires Create(rows, encode, user, today, freshId, freshToken).response.Ok?
    ensures user.phones.Some?
    ensures var e := NewRecord(user, encode, today, freshId, freshToken);
            var after := Create(rows, encode, user, today, freshId, freshToken).rows;
            && e.id == Some(freshId) && e.token == Some(freshToken)
            && e.name == user.name && e.email == user.email
            && e.password == encode(user.password) && e.created == Some(today)
            && e.lastLogin == (if user.lastLogin.Some? then user.lastLogin else Some(today))
            && e.modified == user.modified
            && (e.isActive == Some(true) <==> user.isActive.None?)
            && e.phones.Some? && |e.phones.value| == |user.phones.value|
            && (forall i :: 0 <= i < |user.phones.value| ==>
                  && e.phones.value[i].number == user.phones.value[i].number
                  && e.phones.value[i].cityCode == user.phones.value[i].citycode
                  && e.phones.value[i].countryCode == user.phones.value[i].countrycode
                  && e.phones.value[i].userId == Some(freshId))
            && ((forall i :: 0 <= i < |rows| ==> rows[i].id != Some(freshId)) ==> after == rows + [e])
            && Lookup(after, user.email) == Some(e)
  {
    var e := NewRecord(user, encode, today, freshId, freshToken);
    LookupAfterUpsert(rows, e);
    if forall i :: 0 <= i < |rows| ==> rows[i].id != Some(freshId) {
      assert IndexOf(rows, ById(e.id)) == |rows|;
    }
  }

  /** Registration keeps the table valid: ids and phone lists present, ids and emails unique. */
  lemma CreateKeepsValid(rows: seq<UserEntity>, encode: string -> string, user: User,
                         today: Date, freshId: string, freshToken: string)
    requires StoreValid(rows)
    ensures StoreValid(Create(rows, encode, user, today, freshId, freshToken).rows)
  {
    if Create(rows, encode, user, today, freshId, freshToken).response.Ok? {
      UpsertKeepsValid(rows, NewRecord(user, encode, today, freshId, freshToken));
    }
  }

  /** A second registration with an email that the first one stored fails with Conflict and stores nothing. */
  lemma CreateTwiceConflicts(rows: seq<UserEntity>, encode: string -> string, first: User, second: User,
                             today: Date, freshId: string, freshToken: string,
                             today2: Date, freshId2: string, freshToken2: string)
    requires Create(rows, encode, first, today, freshId, freshToken).response.Ok?
    requires second.email == first.email
    ensures var after := Create(rows, encode, first, today, freshId, freshToken).rows;
            Create(after, encode, second, today2, freshId2, freshToken2) == Outcome(Err(Conflict), after)
  {
    CreateStores(rows, encode, first, today, freshId, freshToken);
  }

  /**
   * When the generated id is new, listing the users after a registration gives
   * the earlier listing followed by the registration's own response.
   */
  lemma CreateThenList(rows: seq<UserEntity>, encode: string -> string, user: User,
                       today: Date, freshId: string, freshToken: string)
    requires RowsComplete(rows)
    requires forall i :: 0 <= i < |rows| ==> rows[i].id != Some(freshId)
    requires Create(rows, encode, user, today, freshId, freshToken).response.Ok?
    ensures var o := Create(rows, encode, user, today, freshId, freshToken);
            RowsComplete(o.rows) && List(o.rows) == List(rows) + [o.response.value]
  {
    var e := NewRecord(user, encode, today, freshId, freshToken);
    CreateStores(rows, encode, user, today, freshId, freshToken);
    ListAppend(rows, e);
  }

  /**
   * The controller's path: a request turned into a model and registered
   * answers with the request's name, email and number of phones, stores the
   * active flag as TRUE (the request never carries one), and reports the last
   * login and creation date as today and no modification date.
   */
  lemma RegisterRequest(rows: seq<UserEntity>, encode: string -> string, dto: UserRequestDto,
                        today: Date, freshId: string, freshToken: string)
    requires Create(rows, encode, ToModel(dto), today, freshId, freshToken).response.Ok?
    ensures dto.phones.Some?
    ensures var o := Create(rows, encode, ToModel(dto), today, freshId, freshToken);
            && o.response.value.name == dto.name && o.response.value.email == dto.email
            && |o.response.value.phones| == |dto.phones.value|
            && o.response.value.lastLogin == Some(today) && o.response.value.created == Some(today)
            && o.response.value.modified.None?
            && NewRecord(ToModel(dto), encode, today, freshId, freshToken).isActive == Some(true)
  {
    CreateResponse(rows, encode, ToModel(dto), today, freshId, freshToken);
  }

  // ---- updateUser ----

  /**
   * A successful update answers with the stored row's id, creation date and
   * token, its last login (or creation date when it has none), today as the
   * modification date, the encoded new password, the request's name, email and
   * phones (country code read from the city code), and the active flag set.
   */
  lemma UpdateResponse(rows: seq<UserEntity>, encode: string -> string, user: User, today: Date)
    requires RowsComplete(rows)
    requires Update(rows, encode, user, today).response.Ok?
    ensures Lookup(rows, user.email).Some? && user.phones.Some?
    ensures var f := Lookup(rows, user.email).value;
            var r := Update(rows, encode, user, today).response.value;
            && r.id == f.id.value && r.created == f.created && r.token == f.token
            && r.lastLogin == (if f.lastLogin.Some? then f.lastLogin else f.created)
            && r.modified == Some(today)
            && r.password == encode(user.password)
            && r.name == user.name && r.email == user.email
            && r.isActive
            && |r.phones| == |user.phones.value|
            && forall i :: 0 <= i < |r.phones| ==>
                 r.phones[i] == PhoneResponseDto(user.phones.value[i].number,
                                                 user.phones.value[i].citycode,
                                                 user.phones.value[i].citycode)
  {
    var f := Lookup(rows, user.email).value;
    var m := ToUserModel(MergedRecord(f, user, encode, today));
    var r := Shape(m);
    forall i | 0 <= i < |r.phones|
      ensures r.phones[i] == PhoneResponseDto(user.phones.value[i].number,
                                              user.phones.value[i].citycode,
                                              user.phones.value[i].citycode)
    {
      assert r.phones[i] == PhoneResponse(m.phones.value[i]);
    }
  }

  /**
   * In a valid table a successful update replaces the row with the request's
   * email in place and leaves every other row and the table's length as they
   * were. The new row keeps the old one's id, creation date, last login and
   * token, is modified today, holds the encoded new password, the request's
   * name and phones (linked to the kept id), and the flag TRUE exactly when the
   * request left it null.
   */
  lemma UpdateInPlace(rows: seq<UserEntity>, encode: string -> string, user: User, today: Date)
    requires StoreValid(rows)
    requires Update(rows, encode, user, today).response.Ok?
    ensures Lookup(rows, user.email).Some? && user.phones.Some?
    ensures var k := IndexOf(rows, ByEmail(user.email));
            var after := Update(rows, encode, user, today).rows;
            var e := MergedRecord(rows[k], user, encode, today);
            && after == rows[k := e]
            && |after| == |rows|
            && (forall j :: 0 <= j < |rows| && j != k ==> after[j] == rows[j])
            && e.id == rows[k].id && e.created == rows[k].created
            && e.lastLogin == rows[k].lastLogin && e.token == rows[k].token
            && e.modified == Some(today) && e.password == encode(user.password)
            && e.name == user.name && e.email == rows[k].email
            && (e.isActive == Some(true) <==> user.isActive.None?)
            && e.phones.Some? && |e.phones.value| == |user.phones.value|
            && (forall i :: 0 <= i < |user.phones.value| ==>
                  && e.phones.value[i].number == user.phones.value[i].number
                  && e.phones.value[i].cityCode == user.phones.value[i].citycode
                  && e.phones.value[i].countryCode == user.phones.value[i].countrycode
                  && e.phones.value[i].userId == rows[k].id)
  {
    IdOfFoundRow(rows, user.email);
  }

  /** Update keeps the table valid: the merged row keeps the found row's id and email. */
  lemma UpdateKeepsValid(rows: seq<UserEntity>, encode: string -> string, user: User, today: Date)
    requires StoreValid(rows)
    ensures StoreValid(Update(rows, encode, user, today).rows)
  {
    if Update(rows, encode, user, today).response.Ok? {
      UpsertKeepsValid(rows, MergedRecord(Lookup(rows, user.email).value, user, encode, today));
    }
  }

  /**
   * Register, then update by the same email: the update succeeds and keeps the
   * id, token and creation date the registration issued, with today's date as
   * the modification date.
   */
  lemma CreateThenUpdate(rows: seq<UserEntity>, encode: string -> string, first: User, second: User,
                         today: Date, freshId: string, freshToken: string, later: Date)
    requires StoreValid(rows)
    requires Create(rows, encode, first, today, freshId, freshToken).response.Ok?
    requires second.email == first.email && second.phones.Some?
    ensures var after := Create(rows, encode, first, today, freshId, freshToken).rows;
            StoreValid(after) &&
            var r := Update(after, encode, second, later).response;
            && r.Ok?
            && r.value.id == freshId && r.value.token == Some(freshToken)
            && r.value.created == Some(today) && r.value.modified == Some(later)
  {
    CreateKeepsValid(rows, encode, first, today, freshId, freshToken);
    CreateStores(rows, encode, first, today, freshId, freshToken);
  }
}
