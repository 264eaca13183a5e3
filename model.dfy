/** The domain model (`model.User`, `model.Phone`): Lombok data holders. */
module Model {
  import opened Common

  /** `model.Phone`: a phone as the service sees it. */
  datatype Phone = Phone(
    number: string,
    citycode: string,
    countrycode: string,
    userId: Option<string>)

  /** `model.User`: the record the service fills in through its setters. */
  datatype User = User(
    id: Option<string>,
    name: string,
    email: string,
    password: string,
    phones: Option<seq<Phone>>,
    created: Option<Date>,
    modified: Option<Date>,
    lastLogin: Option<Date>,
    token: Option<string>,
    isActive: Option<bool>)
}
