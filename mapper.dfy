/** `mapper.UserMapper`: conversions between the domain model and the persisted shape. */
module Mapper {
  import opened Common
  import opened Model
  import opened Entity

  /** The phone a stored PhoneEntity turns into: its country code is read from the city code. */
  function PhoneModel(pe: PhoneEntity): (p: Phone)
    ensures p.number == pe.number
    ensures p.citycode == pe.cityCode && p.countrycode == pe.cityCode
    ensures p.userId.None?
  {
    Phone(number := pe.number, citycode := pe.cityCode, countrycode := pe.cityCode, userId := None)
  }

  /**
   * `toUserModel`. The eight scalar fields are copied, the phones are mapped one
   * to one in order, and `isActive` only records whether the stored flag was set:
   * FALSE when it is null and TRUE otherwise, a stored FALSE included. The
   * source dereferences the phone list without a null check.
   */
  function ToUserModel(e: UserEntity): (u: User)
    requires e.phones.Some?
    ensures u.id == e.id && u.name == e.name && u.email == e.email
    ensures u.password == e.password && u.created == e.created
    ensures u.modified == e.modified && u.lastLogin == e.lastLogin && u.token == e.token
    ensures u.phones.Some? && |u.phones.value| == |e.phones.value|
    ensures forall i :: 0 <= i < |e.phones.value| ==> u.phones.value[i] == PhoneModel(e.phones.value[i])
    ensures u.isActive.Some?
    ensures u.isActive == Some(false) <==> e.isActive.None?
  {
    var ps := e.phones.value;
    User(
      id := e.id,
      name := e.name,
      email := e.email,
      password := e.password,
      phones := Some(seq(|ps|, i requires 0 <= i < |ps| => PhoneModel(ps[i]))),
      created := e.created,
      modified := e.modified,
      lastLogin := e.lastLogin,
      token := e.token,
      isActive := if e.isActive.None? then Some(false) else Some(true))
  }

  /**
   * `toUserEntity`. The eight scalar fields are copied; the phone list is left
   * unset (both callers set it right afterwards); `isActive` is TRUE exactly
   * when the model's flag is null, FALSE otherwise.
   */
  function ToUserEntity(u: User): (e: UserEntity)
    ensures e.id == u.id && e.name == u.name && e.email == u.email
    ensures e.password == u.password && e.created == u.created
    ensures e.modified == u.modified && e.lastLogin == u.lastLogin && e.token == u.token
    ensures e.phones.None?
    ensures e.isActive.Some?
    ensures e.isActive == Some(true) <==> u.isActive.None?
  {
    UserEntity(
      id := u.id,
      name := u.name,
      email := u.email,
      password := u.password,
      phones := None,
      created := u.created,
      modified := u.modified,
      lastLogin := u.lastLogin,
      token := u.token,
      isActive := if u.isActive.None? then Some(true) else Some(false))
  }

  /**
   * `toPhoneEntity`. The three codes are copied field for field, the database
   * key is left unset, and the user reference is a new UserEntity that carries
   * only the phone's `userId`.
   */
  function ToPhoneEntity(p: Phone): (pe: PhoneEntity)
    ensures pe.number == p.number && pe.cityCode == p.citycode && pe.countryCode == p.countrycode
    ensures pe.userId == p.userId
    ensures pe.id.None?
  {
    PhoneEntity(id := None, number := p.number, cityCode := p.citycode,
                countryCode := p.countrycode, userId := p.userId)
  }

  /** The scalar fields both mappers copy: everything but the phones and the active flag. */
  predicate SameScalars(u: User, v: User)
  {
    && u.id == v.id && u.name == v.name && u.email == v.email && u.password == v.password
    && u.created == v.created && u.modified == v.modified && u.lastLogin == v.lastLogin
    && u.token == v.token
  }

  /**
   * Model to entity and back: whatever phone list the entity is given, the
   * scalar fields survive and the active flag always comes back TRUE, because
   * each direction inverts the null test.
   */
  lemma ModelRoundTrip(u: User, phones: seq<PhoneEntity>)
    ensures var back := ToUserModel(ToUserEntity(u).(phones := Some(phones)));
            SameScalars(back, u) && back.isActive == Some(true)
  {
  }

  /** Entity to model and back: the flag always comes back FALSE, the scalars unchanged. */
  lemma EntityRoundTrip(e: UserEntity)
    requires e.phones.Some?
    ensures var back := ToUserEntity(ToUserModel(e));
            && back.isActive == Some(false)
            && back.id == e.id && back.name == e.name && back.email == e.email
            && back.password == e.password && back.created == e.created
            && back.modified == e.modified && back.lastLogin == e.lastLogin && back.token == e.token
  {
  }

  /**
   * Phones through both mappers: the number and city code survive, the country
   * code is replaced by the city code, and the user id is dropped.
   */
  lemma PhoneRoundTrip(p: Phone)
    ensures PhoneModel(ToPhoneEntity(p)) == Phone(p.number, p.citycode, p.citycode, None)
    ensures PhoneModel(ToPhoneEntity(p)) == p <==> p.countrycode == p.citycode && p.userId.None?
  {
  }
}
