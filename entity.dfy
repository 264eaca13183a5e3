/** The persisted shapes (`entity.UserEntity`, `entity.PhoneEntity`). */
module Entity {
  import opened Common

  /**
   * `entity.PhoneEntity`. `id` is the database-generated key; `userId` stands
   * for the `user` reference and records the id of the UserEntity it points to.
   */
  datatype PhoneEntity = PhoneEntity(
    id: Option<int>,
    number: string,
    cityCode: string,
    countryCode: string,
    userId: Option<string>)

  /** `entity.UserEntity`: one row of the user table with its phones. */
  datatype UserEntity = UserEntity(
    id: Option<string>,
    name: string,
    email: string,
    password: string,
    phones: Option<seq<PhoneEntity>>,
    created: Option<Date>,
    modified: Option<Date>,
    lastLogin: Option<Date>,
    token: Option<string>,
    isActive: Option<bool>)
}
