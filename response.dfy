/** The outgoing shapes (`dto.response.UserResponseDTO`, `PhoneResponseDTO`). */
module Response {
  import opened Common

  datatype PhoneResponseDto = PhoneResponseDto(
    number: string,
    citycode: string,
    countrycode: string)

  /**
   * `UserResponseDTO`. `id` is the `java.util.UUID` built from the stored id,
   * kept as its text; `isActive` is always a definite boolean.
   */
  datatype UserResponseDto = UserResponseDto(
    id: string,
    name: string,
    email: string,
    password: string,
    phones: seq<PhoneResponseDto>,
    created: Option<Date>,
    modified: Option<Date>,
    lastLogin: Option<Date>,
    token: Option<string>,
    isActive: bool)
}
