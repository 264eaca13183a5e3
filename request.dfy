/** `dto.request.UserRequestDTO`: the body of a create or update request. */
module Request {
  import opened Common
  import opened Model

  datatype UserRequestDto = UserRequestDto(
    userId: Option<string>,
    name: string,
    email: string,
    password: string,
    phones: Option<seq<Phone>>)

  /**
   * `toModel`: the request as a fresh User. The id is `userId` (the source's
   * `userId != null ? userId : null` is the identity, so null stays null); the
   * four request fields are carried over as they are, and every field the
   * service assigns later is left unset. The request itself is a value, so
   * building the User cannot change it.
   */
  function ToModel(dto: UserRequestDto): (u: User)
    ensures u.id == dto.userId
    ensures u.name == dto.name && u.email == dto.email
    ensures u.password == dto.password && u.phones == dto.phones
    ensures u.created.None? && u.modified.None? && u.lastLogin.None?
    ensures u.token.None? && u.isActive.None?
  {
    User(
      id := if dto.userId.Some? then dto.userId else None,
      name := dto.name,
      email := dto.email,
      password := dto.password,
      phones := dto.phones,
      created := None,
      modified := None,
      lastLogin := None,
      token := None,
      isActive := None)
  }
}
