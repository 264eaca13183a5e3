# User registration service, modelled in Dafny

A model of the business core of a small Spring user-registration service
(`exam-api-nisum`): the credential validators, the user lifecycle of
`UserService` (register, update by email, list), and the pure conversions of
`UserMapper` and `UserRequestDTO.toModel`.

Modules, one per component of the program:

- `Common`: `Option` for Java references that may be null; `Date` for `LocalDate` (a day number).
- `Model`, `Entity`, `Response`: the records `User`/`Phone`, `UserEntity`/`PhoneEntity` and the response DTOs, as datatypes.
- `Request`: `UserRequestDto` and `toModel`.
- `Mapper`: `toUserModel`, `toUserEntity`, `toPhoneEntity`, with round-trip lemmas.
- `Validators`: the email and password patterns, as character classes over code points, each proved equal to a literal reading of its regular expression.
- `Store`: the user table behind `UserRepository` (`findAll`, `findByEmail`, an upsert-by-id `save`) as functions over a sequence of rows. It also holds the table invariant (ids and phone lists present, ids unique, emails unique) and a `UserRepository` class whose `rows` field the service mutates.
- `Service`: response shaping (`setResponse` as a method with a loop, specified by the function `Shape`), the three operations as functions of the table (`Create`, `Update`, `List`), and the `UserService` class whose methods do the source's step-by-step setter updates and call the repository.
- `Lifecycle`: what the operations promise, alone and in sequence.

External collaborators become parameters. The password encoder is a function
given to the `UserService` constructor. "Today" and the two `UUID.randomUUID()`
values are the `today`, `freshId` and `freshToken` arguments of the
operations. The repository's `save` hands back the entity it was given.

Behaviour reproduced from the code as written:

- `toUserModel` reads the country code from the city code. Every response therefore reports each phone's city code as its country code.
- `toUserModel` maps a null active flag to FALSE and any other flag to TRUE. `toUserEntity` maps null to TRUE and anything else to FALSE. So every response of a registration or update is active. A row stored with FALSE is listed as active, not as inactive.
- `updateUser` makes no email-format, conflict or password check.
- The answered password is `encode(password)`, and nothing is stated about it differing from the plaintext.

## Model

| member | source | states |
|---|---|---|
| `Request.ToModel` | src/main/java/com/exam/nisum/user/api/dto/request/UserRequestDTO.java:38-46 | id is `userId` (null stays null); name, email, password and phones are carried over; created, modified, last login, token and active flag are unset |
| `Mapper.PhoneModel` | src/main/java/com/exam/nisum/user/api/mapper/UserMapper.java:31-36 | a stored phone becomes a phone with its number, its city code as both city and country code, and no user id |
| `Mapper.ToUserModel` | src/main/java/com/exam/nisum/user/api/mapper/UserMapper.java:24-44 | the eight scalar fields are copied; phones map one to one in order with country code taken from the city code; the flag is FALSE iff the stored flag is null, else TRUE |
| `Mapper.ToUserEntity` | src/main/java/com/exam/nisum/user/api/mapper/UserMapper.java:52-64 | the eight scalar fields are copied, phones left unset; the flag is TRUE iff the model's flag is null, else FALSE |
| `Mapper.ToPhoneEntity` | src/main/java/com/exam/nisum/user/api/mapper/UserMapper.java:73-82 | number, city and country code copied; no database key; the user reference carries only the phone's user id |
| `Mapper.ModelRoundTrip` | src/main/java/com/exam/nisum/user/api/mapper/UserMapper.java:24-64 | model to entity to model keeps the eight scalar fields and always yields an active flag of TRUE |
| `Mapper.EntityRoundTrip` | src/main/java/com/exam/nisum/user/api/mapper/UserMapper.java:24-64 | entity to model to entity keeps the eight scalar fields and always yields an active flag of FALSE |
| `Mapper.PhoneRoundTrip` | src/main/java/com/exam/nisum/user/api/mapper/UserMapper.java:31-81 | a phone through both mappers loses its country code (replaced by the city code) and its user id; it survives iff those already agree |
| `Validators.IsEmailFormat` | src/main/java/com/exam/nisum/user/api/service/UserService.java:154-162 | the pattern half of `validateFormatEmail`, computed from the first `@` and the last `.`; its contract (accepts exactly what the regular expression matches) is stated by `Validators.EmailFormatIsPattern` |
| `Validators.IsPasswordFormat` | src/main/java/com/exam/nisum/user/api/service/UserService.java:171-179 | `validatePassword`: 8 to 16 code points, no line terminator, an ASCII digit, a lower- and an upper-case letter; its contract (accepts exactly what the regular expression matches) is stated by `Validators.PasswordFormatIsPattern` |
| `Validators.FirstIndexOf` | src/main/java/com/exam/nisum/user/api/service/UserService.java:36 | the first `@` position: no earlier `@`, and the result is `@` or the end |
| `Validators.LastIndexOf` | src/main/java/com/exam/nisum/user/api/service/UserService.java:36 | the last `.` position: no later `.`, and the result is `.` or -1 |
| `Validators.EmailFormatIsPattern` | src/main/java/com/exam/nisum/user/api/service/UserService.java:36 | the email check accepts a string iff it splits as a non-empty `[A-Za-z0-9._%+-]` local part, `@`, a non-empty `[A-Za-z0-9.-]` domain, `.`, and two or more ASCII letters |
| `Validators.PasswordFormatIsPattern` | src/main/java/com/exam/nisum/user/api/service/UserService.java:38 | the password check (8 to 16 code points, no line terminator, an ASCII digit, lower- and upper-case letter) accepts exactly what the three lookaheads and `.{8,16}` match |
| `Validators.SampleEmailAccepted` | src/test/java/com/exam/nisum/user/api/service/UserServiceTest.java:56 | the test email `test@nisum.cl` is well-formed |
| `Validators.SampleEmailsRejected` | src/main/java/com/exam/nisum/user/api/service/UserService.java:36 | `bad-email` (no `@`) and `a@b.c` (one-letter top-level segment) are rejected |
| `Validators.SampleServicePassword` | src/test/java/com/exam/nisum/user/api/service/UserServiceTest.java:57 | the service test's password `123Acb144*` is accepted |
| `Validators.SampleControllerPassword` | src/test/java/com/exam/nisum/user/api/controller/UserControllerTest.java:79 | the controller test's password `Nisum123.` is accepted; the same text ending in a line feed is not |
| `Store.IndexOf` | src/main/java/com/exam/nisum/user/api/service/UserService.java:120 | the first row carrying a key (an email, as `findByEmail` looks up; an id, as `save` matches rows), or the end when none does; no earlier row carries it |
| `Store.Lookup` | src/main/java/com/exam/nisum/user/api/service/UserService.java:163 | `findByEmail` answers a row iff some row has the email, and the row it answers has it |
| `Store.Upsert` | src/main/java/com/exam/nisum/user/api/service/UserService.java:111 | `save` replaces the first row with the entity's id in place, or appends the entity when no row has its id |
| `Store.UpsertKeepsValid` | src/main/java/com/exam/nisum/user/api/service/UserService.java:163-168 | saving a complete entity whose email is new, or belongs to the row it replaces, keeps ids and emails unique |
| `Store.UserRepository.FindAll` | src/main/java/com/exam/nisum/user/api/service/UserService.java:59 | answers every row in table order |
| `Store.UserRepository.FindByEmail` | src/main/java/com/exam/nisum/user/api/service/UserService.java:120 | answers a row iff one has the email |
| `Store.UserRepository.Save` | src/main/java/com/exam/nisum/user/api/service/UserService.java:111 | upserts by id and hands back its argument |
| `Service.EmailCheck` | src/main/java/com/exam/nisum/user/api/service/UserService.java:154-169 | BadRequest iff the pattern fails; Conflict iff it passes and the email is stored; no error otherwise |
| `Service.PhoneResponse` | src/main/java/com/exam/nisum/user/api/service/UserService.java:71-75 | the response triple of one phone: number, city code and country code copied; stated element by element by `Service.ShapePhones` |
| `Service.ShapePhones` | src/main/java/com/exam/nisum/user/api/service/UserService.java:68-77 | a null list gives no phones; otherwise one triple per phone, in order, copied |
| `Service.Shape` | src/main/java/com/exam/nisum/user/api/service/UserService.java:79-90 | the response copies id, name, email, password (echoed), dates and token; last login falls back to created; active iff the flag is set and true |
| `Service.SetResponse` | src/main/java/com/exam/nisum/user/api/service/UserService.java:67-91 | the loop that fills the phone list builds exactly `Shape(user)` |
| `Service.LinkPhones` | src/main/java/com/exam/nisum/user/api/service/UserService.java:104-109 | one phone entity per phone, in order, codes copied, each pointing at the entity's id; nothing else of the entity changes |
| `Service.Registered` | src/main/java/com/exam/nisum/user/api/service/UserService.java:97-101 | the user after the registration setters: the generated id and token, the encoded password, created today, the supplied last login or else the creation date (today); name, email, phones, modified date and flag untouched |
| `Service.Merged` | src/main/java/com/exam/nisum/user/api/service/UserService.java:126-134 | the user after the update setters: id, created, last login and token from the found row, modified today, the encoded password; name, email and phones set to themselves and so untouched, flag untouched |
| `Service.NewRecord` | src/main/java/com/exam/nisum/user/api/service/UserService.java:103-109 | the row handed to `save` on registration; its fields and linked phones are stated by `Lifecycle.CreateStores` |
| `Service.MergedRecord` | src/main/java/com/exam/nisum/user/api/service/UserService.java:136-141 | the row handed to `save` on update; its fields and linked phones are stated by `Lifecycle.UpdateInPlace` |
| `Service.Create` | src/main/java/com/exam/nisum/user/api/service/UserService.java:93-116 | malformed email gives BadRequest whatever the table holds; stored email gives Conflict whatever the password; bad password gives BadRequest only after the email passed; a null phone list after all three checks gives NullPhones; success iff all checks pass and phones are present; every failure leaves the table unchanged |
| `Service.Update` | src/main/java/com/exam/nisum/user/api/service/UserService.java:118-152 | NotFound iff no row has the email; a found row with a null phone list gives NullPhones; success iff a row has it and phones are present, with no format or password check; every failure leaves the table unchanged |
| `Service.List` | src/main/java/com/exam/nisum/user/api/service/UserService.java:58-65 | one response per row in table order, with the row's id and fields; last login defaulted to created; active iff the stored flag is set (FALSE included); phones with country code equal to city code |
| `Service.UserService.constructor` | src/main/java/com/exam/nisum/user/api/service/UserService.java:46-50 | the service holds the repository and encoder it is given, over a valid table |
| `Service.UserService.GetUsers` | src/main/java/com/exam/nisum/user/api/service/UserService.java:58-65 | answers `List` of the current rows |
| `Service.UserService.ValidateFormatEmail` | src/main/java/com/exam/nisum/user/api/service/UserService.java:154-169 | answers `EmailCheck` of the current rows |
| `Service.UserService.SaveUser` | src/main/java/com/exam/nisum/user/api/service/UserService.java:93-116 | the setter steps, phone linking, `save` and shaping answer and store exactly `Create`; the table stays valid |
| `Service.UserService.UpdateUser` | src/main/java/com/exam/nisum/user/api/service/UserService.java:118-152 | the lookup, setter steps, `save` and shaping answer and store exactly `Update`; the table stays valid |
| `Lifecycle.CreateResponse` | src/main/java/com/exam/nisum/user/api/service/UserService.java:97-115 | a registration answers the fresh id and token, `encode(password)`, created today, last login as supplied or today, modified as supplied, the request's name and email, active, and one phone per input phone in order |
| `Lifecycle.CreateStores` | src/main/java/com/exam/nisum/user/api/service/UserService.java:97-111 | the stored row has the generated fields, the flag TRUE iff the request left it null, phones linked to the new id in order; a fresh id appends it; `findByEmail` then finds it |
| `Lifecycle.CreateKeepsValid` | src/main/java/com/exam/nisum/user/api/service/UserService.java:93-116 | registration keeps ids and phone lists present and ids and emails unique |
| `Lifecycle.CreateTwiceConflicts` | src/main/java/com/exam/nisum/user/api/service/UserService.java:163-168 | a second registration with the same email fails with Conflict and stores nothing |
| `Lifecycle.CreateThenList` | src/main/java/com/exam/nisum/user/api/service/UserService.java:58-65 | with a fresh id, the listing afterwards is the old listing followed by the registration's response |
| `Lifecycle.RegisterRequest` | src/test/java/com/exam/nisum/user/api/service/UserServiceTest.java:91-99 | a request registered through `toModel` answers its name, email and phone count, last login and created today, no modified date, and is stored with the flag TRUE |
| `Lifecycle.UpdateResponse` | src/main/java/com/exam/nisum/user/api/service/UserService.java:126-149 | an update answers the stored id, created, token and last login (or created), modified today, `encode(new password)`, the request's name, email and phones, active |
| `Lifecycle.UpdateInPlace` | src/main/java/com/exam/nisum/user/api/service/UserService.java:126-143 | the row with the email is replaced in place; the new row keeps id, created, last login and token, is modified today, holds the encoded password and the request's phones linked to the kept id; other rows and the length are unchanged |
| `Lifecycle.UpdateKeepsValid` | src/main/java/com/exam/nisum/user/api/service/UserService.java:118-143 | an update keeps the table valid |
| `Lifecycle.CreateThenUpdate` | src/main/java/com/exam/nisum/user/api/service/UserService.java:126-134 | registering and then updating by the same email succeeds and keeps the id, token and creation date, with the later date as modified |

## Left out

- `UserController.java`: HTTP routing and status codes. The model's callers see the `Error` datatype: BadRequest, Conflict, NotFound and NullPhones.
- The exception messages (which embed the email) are not modelled; only the kind of failure is.
- The password encoder (BCrypt, salted) is a fixed function chosen when the service is built. Every lemma holds for any such function. Two encodings of the same password are therefore equal in the model, which BCrypt does not promise. Nothing is stated about `encode(p)` differing from `p`.
- `UUID.randomUUID()` and `LocalDate.now()` are arguments. Their freshness is not assumed, except where a lemma says so (`CreateStores`, `CreateThenList`).
- `UUID.fromString` (parsing and normalising the id text) is taken as the identity on stored ids, so a response's id is the stored id text. Its failure on malformed text is not modelled.
- `Service.SetResponse`: requires an id, where the source would throw on a null id. No caller passes one: registration sets it, and stored rows always have one.
- `Mapper.ToUserModel`: requires a phone list, where the source dereferences it unchecked. Stored rows always carry one, and both callers set it before saving.
- The `User` passed to `saveUser`/`updateUser` is a value here. The setter steps change a local copy, not the caller's object; the only caller (the controller) discards it.
- Null name, email or password (the null-pointer paths of `Pattern.matcher` and the encoder) are not modelled; these fields are strings. Null phone lists are modelled.
- The field lists of `User` and `UserEntity` follow the mapper and the builders.
- `Mapper.ToUserEntity`: the unset phone list is taken to be null (`phones.None?`), although the service test that lists a freshly built `UserEntity` with no phones set expects one response from `toUserModel`, which dereferences the list, and so implies a non-null, presumably empty, default. No modelled caller sees the difference: rows are read with their list present, and `saveUser` and `updateUser` set the list before saving.
- Null elements inside a phone list (a JSON `[null]`, on which `toPhoneEntity` throws) and null phone fields are not modelled: phones are a sequence of `Phone` values with string fields.
- `PhoneEntity.user` is kept as the id of the UserEntity it points to. The object graph is not modelled: the back-link to the whole user, aliasing of the stub user in `toPhoneEntity`, and JPA cascading or orphaning of an updated user's old phone rows.
- `PhoneRepository.java` (unused by the service), `EncoderConfig.java`, `@Transactional`, Jackson (de)serialisation and the Mockito scaffolding are not modelled.
- The check-then-insert race on email uniqueness is not modelled: the model is sequential.
- Strings are sequences of Unicode code points, which is what `java.util.regex` steps over. Lone UTF-16 surrogates are not modelled.
