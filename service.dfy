/**
 * `service.UserService`: registration, update and listing of users.
 *
 * The clock (`LocalDate.now()`) and the UUID generator are parameters of the
 * operations (`today`, `freshId`, `freshToken`); the password encoder is a
 * function handed to the service when it is built.
 */
module Service {
  import opened Common
  import opened Model
  import opened Entity
  import opened Response
  import opened Mapper
  import opened Validators
  import opened Store

  /** Which check a bad request failed. */
  datatype Reason = EmailFormat | PasswordFormat

  /**
   * The exceptions the operations end in: `ResponseStatusException` with
   * BAD_REQUEST or CONFLICT, the `IllegalArgumentException` of an update whose
   * email is unknown, and the null dereference of a missing phone list.
   */
  datatype Error = BadRequest(reason: Reason) | Conflict | NotFound | NullPhones

  datatype Result<T> = Ok(value: T) | Err(error: Error)

  /** What an operation answers, with the table it leaves behind. */
  datatype Outcome = Outcome(response: Result<UserResponseDto>, rows: seq<UserEntity>)

  // ---- validation ----

  /** `validateFormatEmail`: the pattern first, then the uniqueness query. */
  function EmailCheck(rows: seq<UserEntity>, email: string): (r: Option<Error>)
    ensures r == Some(BadRequest(EmailFormat)) <==> !IsEmailFormat(email)
    ensures r == Some(Conflict) <==> IsEmailFormat(email) && Lookup(rows, email).Some?
    ensures r == None <==> IsEmailFormat(email) && Lookup(rows, email).None?
  {
    if !IsEmailFormat(email) then Some(BadRequest(EmailFormat))
    else if Lookup(rows, email).Some? then Some(Conflict)
    else None
  }

  // ---- response shaping ----

  function PhoneResponse(p: Phone): (r: PhoneResponseDto)
  {
    PhoneResponseDto(number := p.number, citycode := p.citycode, countrycode := p.countrycode)
  }

  /** The response phones: one triple per phone, in order; none for a null list. */
  function ShapePhones(phones: Option<seq<Phone>>): (r: seq<PhoneResponseDto>)
    ensures phones.None? ==> r == []
    ensures phones.Some? ==> |r| == |phones.value|
    ensures phones.Some? ==> forall i :: 0 <= i < |r| ==>
              && r[i].number == phones.value[i].number
              && r[i].citycode == phones.value[i].citycode
              && r[i].countrycode == phones.value[i].countrycode
  {
    match phones
    case None => []
    case Some(ps) => seq(|ps|, i requires 0 <= i < |ps| => PhoneResponse(ps[i]))
  }

  /**
   * `setResponse`, as a value. The id is the stored one; the password is echoed
   * as it is held; the last login falls back to the creation date; the user is
   * active only when its flag is set and true.
   */
  function Shape(u: User): (r: UserResponseDto)
    requires u.id.Some?
    ensures r.id == u.id.value && r.name == u.name && r.email == u.email
    ensures r.password == u.password
    ensures r.created == u.created && r.modified == u.modified && r.token == u.token
    ensures r.lastLogin == if u.lastLogin.Some? then u.lastLogin else u.created
    ensures r.isActive <==> u.isActive == Some(true)
    ensures r.phones == ShapePhones(u.phones)
  {
    UserResponseDto(
      id := u.id.value,
      name := u.name,
      email := u.email,
      password := u.password,
      phones := ShapePhones(u.phones),
      created := u.created,
      modified := u.modified,
      lastLogin := if u.lastLogin.Some? then u.lastLogin else u.created,
      token := u.token,
      isActive := u.isActive == Some(true))
  }

  /**
   * `setResponse`: fills the phone list one phone at a time, then builds the
   * response. `UUID.fromString` is taken to give back the id it was handed.
   */
  method SetResponse(user: User) returns (r: UserResponseDto)
    requires user.id.Some?
    ensures r == Shape(user)
  {
    var phones: seq<PhoneResponseDto> := [];
    if user.phones.Some? {
      var ps := user.phones.value;
      var i := 0;
      while i < |ps|
        invariant 0 <= i <= |ps|
        invariant |phones| == i
        invariant forall j :: 0 <= j < i ==> phones[j] == PhoneResponse(ps[j])
      {
        phones := phones + [PhoneResponse(ps[i])];
        i := i + 1;
      }
    }
    r := UserResponseDto(
      id := user.id.value,
      name := user.name,
      email := user.email,
      password := user.password,
      phones := phones,
      created := user.created,
      modified := user.modified,
      lastLogin := if user.lastLogin != None then user.lastLogin else user.created,
      token := user.token,
      isActive := user.isActive != None && user.isActive.value);
  }

  // ---- record assembly ----

  /**
   * The phone entities `saveUser` and `updateUser` attach to the entity: one per
   * phone, in order, each pointing back at that entity.
   */
  function LinkPhones(e: UserEntity, phones: seq<Phone>): (r: UserEntity)
    ensures r.(phones := e.phones) == e
    ensures r.phones.Some? && |r.phones.value| == |phones|
    ensures forall i :: 0 <= i < |phones| ==>
              && r.phones.value[i].number == phones[i].number
              && r.phones.value[i].cityCode == phones[i].citycode
              && r.phones.value[i].countryCode == phones[i].countrycode
              && r.phones.value[i].userId == e.id
              && r.phones.value[i].id.None?
  {
    e.(phones := Some(seq(|phones|, i requires 0 <= i < |phones| => ToPhoneEntity(phones[i]).(userId := e.id))))
  }

  /** The user after the setters of `saveUser`. */
  function Registered(user: User, encode: string -> string, today: Date, freshId: string, freshToken: string): (u: User)
    ensures u.id == Some(freshId) && u.token == Some(freshToken)
    ensures u.password == encode(user.password) && u.created == Some(today)
    ensures u.lastLogin == if user.lastLogin.Some? then user.lastLogin else Some(today)
    ensures u.name == user.name && u.email == user.email && u.phones == user.phones
    ensures u.modified == user.modified && u.isActive == user.isActive
  {
    user.(
      id := Some(freshId),
      password := encode(user.password),
      created := Some(today),
      lastLogin := if user.lastLogin.Some? then user.lastLogin else Some(today),
      token := Some(freshToken))
  }

  /**
   * The user after the setters of `updateUser`: id, creation date, last login
   * and token come from the stored row, the modification date is today, and the
   * request's password is encoded. Name, email and phones are set to themselves.
   */
  function Merged(found: UserEntity, user: User, encode: string -> string, today: Date): (u: User)
    ensures u.id == found.id && u.created == found.created
    ensures u.lastLogin == found.lastLogin && u.token == found.token
    ensures u.modified == Some(today) && u.password == encode(user.password)
    ensures u.name == user.name && u.email == user.email && u.phones == user.phones
    ensures u.isActive == user.isActive
  {
    user.(
      id := found.id,
      password := encode(user.password),
      created := found.created,
      modified := Some(today),
      lastLogin := found.lastLogin,
      token := found.token)
  }

  /** The row `saveUser` hands to `save`. */
  function NewRecord(user: User, encode: string -> string, today: Date, freshId: string, freshToken: string): (e: UserEntity)
    requires user.phones.Some?
  {
    var u := Registered(user, encode, today, freshId, freshToken);
    LinkPhones(ToUserEntity(u), u.phones.value)
  }

  /** The row `updateUser` hands to `save`. */
  function MergedRecord(found: UserEntity, user: User, encode: string -> string, today: Date): (e: UserEntity)
    requires user.phones.Some?
  {
    var u := Merged(found, user, encode, today);
    LinkPhones(ToUserEntity(u), u.phones.value)
  }

  // ---- the three operations, as functions of the table ----

  /**
   * `saveUser`. Fails with BadRequest on a malformed email whatever the table
   * holds, with Conflict on a well-formed email already stored, with BadRequest
   * on a bad password only once the email has passed, and with NullPhones on a
   * null phone list; none of these reaches `save`.
   */
  function Create(rows: seq<UserEntity>, encode: string -> string, user: User,
                  today: Date, freshId: string, freshToken: string): (o: Outcome)
    ensures !IsEmailFormat(user.email) ==> o == Outcome(Err(BadRequest(EmailFormat)), rows)
    ensures IsEmailFormat(user.email) && Lookup(rows, user.email).Some? ==> o == Outcome(Err(Conflict), rows)
    ensures IsEmailFormat(user.email) && Lookup(rows, user.email).None? && !IsPasswordFormat(user.password) ==>
              o == Outcome(Err(BadRequest(PasswordFormat)), rows)
    ensures IsEmailFormat(user.email) && Lookup(rows, user.email).None? && IsPasswordFormat(user.password) && user.phones.None? ==>
              o == Outcome(Err(NullPhones), rows)
    ensures o.response.Ok? <==>
              IsEmailFormat(user.email) && Lookup(rows, user.email).None? &&
              IsPasswordFormat(user.password) && user.phones.Some?
    ensures o.response.Err? ==> o.rows == rows
  {
    var emailError := EmailCheck(rows, user.email);
    if emailError.Some? then Outcome(Err(emailError.value), rows)
    else if !IsPasswordFormat(user.password) then Outcome(Err(BadRequest(PasswordFormat)), rows)
    else if user.phones.None? then Outcome(Err(NullPhones), rows)
    else
      var e := NewRecord(user, encode, today, freshId, freshToken);
      Outcome(Ok(Shape(ToUserModel(e))), Upsert(rows, e))
  }

  /**
   * `updateUser`. Fails with NotFound exactly when no row has the request's
   * email, and then leaves the table alone; no format, conflict or password
   * check is made.
   */
  function Update(rows: seq<UserEntity>, encode: string -> string, user: User, today: Date): (o: Outcome)
    requires RowsComplete(rows)
    ensures o.response == Err(NotFound) <==> Lookup(rows, user.email).None?
    ensures Lookup(rows, user.email).Some? && user.phones.None? ==> o == Outcome(Err(NullPhones), rows)
    ensures o.response.Ok? <==> Lookup(rows, user.email).Some? && user.phones.Some?
    ensures o.response.Err? ==> o.rows == rows
  {
    var found := Lookup(rows, user.email);
    if found.None? then Outcome(Err(NotFound), rows)
    else if user.phones.None? then Outcome(Err(NullPhones), rows)
    else
      var e := MergedRecord(found.value, user, encode, today);
      Outcome(Ok(Shape(ToUserModel(e))), Upsert(rows, e))
  }

  /**
   * `getUsers`: one response per row, in table order. A stored flag reads as
   * active whenever it is set, FALSE included, since `toUserModel` only tests it
   * for null; every phone reports its city code as its country code.
   */
  function List(rows: seq<UserEntity>): (r: seq<UserResponseDto>)
    requires RowsComplete(rows)
    ensures |r| == |rows|
    ensures forall i :: 0 <= i < |rows| ==>
              && r[i].id == rows[i].id.value && r[i].name == rows[i].name
              && r[i].email == rows[i].email && r[i].password == rows[i].password
              && r[i].created == rows[i].created && r[i].modified == rows[i].modified
              && r[i].token == rows[i].token
              && r[i].lastLogin == (if rows[i].lastLogin.Some? then rows[i].lastLogin else rows[i].created)
              && (r[i].isActive <==> rows[i].isActive.Some?)
              && |r[i].phones| == |rows[i].phones.value|
    ensures forall i, j :: 0 <= i < |rows| && 0 <= j < |rows[i].phones.value| ==>
              r[i].phones[j] == PhoneResponseDto(rows[i].phones.value[j].number,
                                                 rows[i].phones.value[j].cityCode,
                                                 rows[i].phones.value[j].cityCode)
  {
    seq(|rows|, i requires 0 <= i < |rows| => Shape(ToUserModel(rows[i])))
  }

  // ---- the service object ----

  class UserService {
    const repository: UserRepository
    const encode: string -> string

    ghost predicate Valid()
      reads repository
    {
      StoreValid(repository.rows)
    }

    constructor (repository: UserRepository, encode: string -> string)
      requires StoreValid(repository.rows)
      ensures this.repository == repository && this.encode == encode
      ensures Valid()
    {
      this.repository := repository;
      this.encode := encode;
    }

    /** `getUsers`. */
    method GetUsers() returns (r: seq<UserResponseDto>)
      requires Valid()
      ensures r == List(repository.rows)
    {
      var rows := repository.FindAll();
      r := [];
      var i := 0;
      while i < |rows|
        invariant 0 <= i <= |rows|
        invariant r == List(rows[..i])
      {
        var response := SetResponse(ToUserModel(rows[i]));
        r := r + [response];
        i := i + 1;
      }
      assert rows[..i] == rows;
    }

    /** `validateFormatEmail`: the pattern, then the repository query. */
    method ValidateFormatEmail(email: string) returns (err: Option<Error>)
      ensures err == EmailCheck(repository.rows, email)
    {
      if !IsEmailFormat(email) {
        return Some(BadRequest(EmailFormat));
      }
      var existing := repository.FindByEmail(email);
      if existing.Some? {
        return Some(Conflict);
      }
      return None;
    }

    /** `saveUser`: check, fill in the generated fields, save, and answer with the saved record. */
    method SaveUser(user: User, today: Date, freshId: string, freshToken: string)
      returns (r: Result<UserResponseDto>)
      requires Valid()
      modifies repository
      ensures Valid()
      ensures var o := Create(old(repository.rows), encode, user, today, freshId, freshToken);
              r == o.response && repository.rows == o.rows
    {
      var emailError := ValidateFormatEmail(user.email);
      if emailError.Some? {
        return Err(emailError.value);
      }
      if !IsPasswordFormat(user.password) {
        return Err(BadRequest(PasswordFormat));
      }
      var u := user;
      u := u.(id := Some(freshId));
      u := u.(password := encode(u.password));
      u := u.(created := Some(today));
      u := u.(lastLogin := if u.lastLogin != None then u.lastLogin else u.created);
      u := u.(token := Some(freshToken));
      if u.phones.None? {
        return Err(NullPhones);
      }
      var entity := LinkPhones(ToUserEntity(u), u.phones.value);
      UpsertKeepsValid(repository.rows, entity);
      var created := repository.Save(entity);
      var response := SetResponse(ToUserModel(created));
      r := Ok(response);
    }

    /** `updateUser`: find the row by email, merge the request into it, save, and answer. */
    method UpdateUser(user: User, today: Date) returns (r: Result<UserResponseDto>)
      requires Valid()
      modifies repository
      ensures Valid()
      ensures var o := Update(old(repository.rows), encode, user, today);
              r == o.response && repository.rows == o.rows
    {
      var searchUser := repository.FindByEmail(user.email);
      if searchUser.None? {
        return Err(NotFound);
      }
      var found := searchUser.value;
      var u := user;
      u := u.(id := found.id);
      u := u.(name := u.name);
      u := u.(email := u.email);
      u := u.(password := encode(u.password));
      u := u.(phones := u.phones);
      u := u.(created := found.created);
      u := u.(modified := Some(today));
      u := u.(lastLogin := found.lastLogin);
      u := u.(token := found.token);
      if u.phones.None? {
        return Err(NullPhones);
      }
      var entity := LinkPhones(ToUserEntity(u), u.phones.value);
      UpsertKeepsValid(repository.rows, entity);
      var modified := repository.Save(entity);
      var response := SetResponse(ToUserModel(modified));
      r := Ok(response);
    }
  }
}
