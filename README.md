# nest_crud core in Dafny

This project models the logic layer of a NestJS + TypeORM CRUD service for
users and their social media profiles. It covers three parts.

- **`PositiveIntPipe`** checks a path parameter. It reads a string with
  JavaScript's `parseInt(value, 10)`, as defined in section 19.2.5 of ECMA-262:
  - it skips leading StrWhiteSpaceChar;
  - it accepts one optional sign;
  - it reads the longest run of decimal digits and ignores the rest;
  - no digits at all gives NaN.

  A NaN is rejected with "Validation failed (integer expected)". A value of
  0 or less is rejected with "Validation failed (positive integer is
  expected)". Any other value is returned.
- **The entity-to-DTO mappers.** There are three:
  - the user mapper, which copies five scalar fields;
  - the social media mapper of `src/`, which reads the owner id from the
    loaded `user` relation;
  - the social media mapper of `backend/`, which prefers an explicit owner
    id (`userId || socialMedia.user?.id`, with JavaScript truthiness).
- **The two services**, modelled as classes over tables. Each TypeORM
  repository is a `map` from id to row plus an auto-increment counter
  `nextId`.
  - `UsersService` provides findAll, findOne, create, update, replace and
    delete.
  - `SocialMediaService` provides owner-scoped findByUser, create,
    findOneByUser, updateByUser and deleteByUser over a social media table
    and a users table.

  The read-only queries are functions of the tables. The operations that
  write are methods with `modifies`. Their postconditions give:
  - the whole new table;
  - the HTTP exception, with its exact message;
  - that the store is unchanged on every failure;
  - the agreement between a write and the next read.

An exception is a value of the `Result` datatype, `Err(BadRequest(msg))` or
`Err(NotFound(msg))`. A message such as `User with id ${id} not found` renders
the id as a template literal renders an integral number below 10^21 (plain
decimal digits, a leading '-' when negative). Each message names its ids: the
rendered id can be read back from the message, and distinct ids give distinct
messages.

Modelling decisions:
- **Listing order.** The store's `find` is modelled as listing rows in
  ascending id order (`Repository.AscendingIds`). The source does not request
  an order.
- **Loaded relations.** Users are loaded with their `socialMedia` relation
  absent (`None`). The user mapper drops that relation either way.
- **Referential integrity.** `SocialMediaService.Valid` requires every record's
  owner to exist in the users table. This reflects the non-null foreign key
  at src/entities/social-media.entity.ts:16-17. It is what makes the `src/`
  mapper's loaded-`user` precondition hold.
- **The backend user mapper.** `backend/src/users/users.service.ts` imports
  `./mappers/user.mapper`, which is not part of this model. It is taken to
  behave like `src/users/mappers/user.mapper.ts`. The backend points the other
  way in three places: every read there whose result reaches the mapper
  loads `relations: ['socialMedia']`
  (backend/src/users/users.service.ts:21,29,42,54,74); the mocked response DTO
  in its test carries `socialMedia: []` (backend/src/users/users.service.spec.ts:30);
  and the backend social media mapper takes an explicit owner id, which suits
  mapping a user's nested list. The backend mapper may therefore also map the
  relation; this model does not.
- **Replacement DTO.** `ReplaceUserDto` is not part of this model either. It
  is taken to carry all four scalar fields.

## Model

| member | source | states |
|---|---|---|
| PositiveIntPipe.Transform | backend/src/pipes/positive-int.pipe.ts:8-22 | Success exactly when parseInt gives an integral value of at least 1, and the result is that value. NaN is checked first and gives BadRequest "integer expected", so a non-numeric string never gets the other message. An integral value of 0 or less gives BadRequest "positive integer is expected". |
| PositiveIntPipe.ParseInt | backend/src/pipes/positive-int.pipe.ts:9 | `parseInt(value, 10)`: a string of white space only (or the empty string) is NaN, and a number is only ever read from a string that contains a decimal digit. |
| PositiveIntPipe.ParseTrimmed | backend/src/pipes/positive-int.pipe.ts:9 | After trimming, the result is a number exactly when the string starts with a digit, or with '+' or '-' followed by a digit; a negative result needs a leading '-'. |
| PositiveIntPipe.StripSign | backend/src/pipes/positive-int.pipe.ts:9 | Consumes at most one character, and does so exactly when it is '+' or '-'; the result is negative exactly when that character is '-'. |
| PositiveIntPipe.ParseDigits | backend/src/pipes/positive-int.pipe.ts:9 | NaN exactly when the body does not start with a digit; otherwise the value is non-negative without '-' and non-positive with it. |
| PositiveIntPipe.TrimStart | backend/src/pipes/positive-int.pipe.ts:9 | The result is a suffix of the input. The removed prefix is all StrWhiteSpaceChar, and the result does not begin with one. |
| PositiveIntPipe.TrimStartOfSplit | backend/src/pipes/positive-int.pipe.ts:9 | White space followed by a string that does not start with white space trims to exactly that string. |
| PositiveIntPipe.StripSignOfParts | backend/src/pipes/positive-int.pipe.ts:9 | An optional sign followed by a sign-free string is consumed exactly, and only '-' makes the result negative. |
| PositiveIntPipe.ParseIntOfStripped | backend/src/pipes/positive-int.pipe.ts:9 | Once trimming and sign stripping leave digits followed by a non-digit, parseInt is the signed value of those digits. |
| PositiveIntPipe.ParseIntOfParts | backend/src/pipes/positive-int.pipe.ts:9 | Any string made of white space, an optional sign, at least one digit and a tail not starting with a digit parses to the signed value of the digits. |
| PositiveIntPipe.ParseIntParts | backend/src/pipes/positive-int.pipe.ts:9 | The converse: every string parseInt maps to a number splits into white space, sign, digits and a non-digit tail, and its value is the signed value of the digits. |
| PositiveIntPipe.SignParts | backend/src/pipes/positive-int.pipe.ts:9 | Every trimmed string splits into the sign parseInt consumes and the body after it. |
| PositiveIntPipe.DigitParts | backend/src/pipes/positive-int.pipe.ts:9 | A body that yields a number splits into its digit run and a non-digit tail, and the value is the signed value of that run. |
| PositiveIntPipe.StripSignNoDigits | backend/src/pipes/positive-int.pipe.ts:9 | After an optional sign, a body that does not itself start with a sign is exactly what is left to read. |
| PositiveIntPipe.ParseTrimmedNoDigits | backend/src/pipes/positive-int.pipe.ts:9 | When the body after the sign does not start with a digit, parseInt gives NaN. |
| PositiveIntPipe.TransformAcceptsDecimal | backend/src/pipes/positive-int.pipe.ts:9-21 | Round trip: for every n ≥ 1, the decimal form of n followed by any tail that does not start with a digit is accepted as n. |
| PositiveIntPipe.TransformRejectsNonPositive | backend/src/pipes/positive-int.pipe.ts:15-19 | "0" with any sign, or any "-n", followed by a non-digit tail, gets BadRequest "positive integer is expected". |
| PositiveIntPipe.TransformRejectsNonNumeric | backend/src/pipes/positive-int.pipe.ts:11-13 | White space and an optional sign followed by no digit get BadRequest "integer expected". |
| PositiveIntPipe.TransformExampleTrailing | backend/src/pipes/positive-int.pipe.ts:9 | "12abc" is accepted as 12. |
| PositiveIntPipe.TransformExampleZero | backend/src/pipes/positive-int.pipe.ts:15-19 | "0" gets the "positive" message. |
| PositiveIntPipe.TransformExampleNegative | backend/src/pipes/positive-int.pipe.ts:15-19 | "-5" gets the "positive" message. |
| PositiveIntPipe.TransformExampleNonNumeric | backend/src/pipes/positive-int.pipe.ts:11-13 | "abc" gets the "integer" message. |
| PositiveIntPipe.TransformIgnoresMetadata | backend/src/pipes/positive-int.pipe.ts:8 | The metadata argument never changes the outcome. |
| Decimal.LeadingDigits | backend/src/pipes/positive-int.pipe.ts:9 | The longest prefix made of decimal digits: a prefix, all digits, and followed by a non-digit or by nothing. |
| Decimal.LeadingDigitsOfSplit | backend/src/pipes/positive-int.pipe.ts:9 | A digit run followed by a non-digit is exactly the leading digits. |
| Decimal.DecimalString | backend/src/users/users.service.ts:32 | The canonical rendering of a natural number: non-empty, all digits, and no leading zero. |
| Decimal.IntToString | backend/src/users/users.service.ts:32 | The rendering of an integer is non-empty, starts with '-' exactly when the integer is negative, and is otherwise made of decimal digits. |
| Decimal.IntToStringInjective | backend/src/users/users.service.ts:32 | Two integers render the same exactly when they are equal. |
| Decimal.DigitsValueOfDecimalString | backend/src/pipes/positive-int.pipe.ts:9 | Reading the canonical rendering back gives the number. |
| Decimal.DecimalStringInjective | backend/src/users/users.service.ts:32 | Two numbers have the same rendering exactly when they are equal. |
| UserMapper.ToResponseDto | src/users/mappers/user.mapper.ts:5-13 | Copies id, firstName, lastName, phone and email unchanged. The response type has no relation field. |
| UserMapper.ToResponseDtoArray | src/users/mappers/user.mapper.ts:15-17 | Same length, and element i is the mapping of input i, so order is kept and empty maps to empty. |
| UserMapper.ToResponseDtoEqualIff | src/users/mappers/user.mapper.ts:5-13 | Two users map to the same DTO exactly when they agree on the five copied fields, so users that differ only in their socialMedia relation map alike. |
| SocialMediaMapper.ToResponseDto | src/social-media/mappers/social-media.mapper.ts:5-12 | Requires a loaded owner, since there is no optional chaining. Copies id, name and url, and the output userId is the owner's id. |
| SocialMediaMapper.OnlyOwnerIdMatters | src/social-media/mappers/social-media.mapper.ts:10 | Replacing the loaded owner with any user of the same id leaves the response unchanged. |
| SocialMediaMapper.ToResponseDtoArray | src/social-media/mappers/social-media.mapper.ts:14-16 | Same length, and element i is the mapping of input i. |
| BackendSocialMediaMapper.Truthy | backend/src/social-media/mappers/social-media.mapper.ts:13 | The definition of JavaScript truthiness for the optional id (undefined and 0 are falsy) that `OwnerId` uses for `||`; it has no contract of its own, and the behaviour is stated by `OwnerId` and `ExplicitOwnerWins`. |
| BackendSocialMediaMapper.OwnerId | backend/src/social-media/mappers/social-media.mapper.ts:13 | A truthy explicit id (present and not 0) is returned as is. Otherwise the result is the loaded relation's id, or undefined (None) when no relation is loaded. |
| BackendSocialMediaMapper.ToResponseDto | backend/src/social-media/mappers/social-media.mapper.ts:5-15 | Copies id, name and url unchanged, and the owner id follows the `||` fallback. |
| BackendSocialMediaMapper.ToResponseDtoArray | backend/src/social-media/mappers/social-media.mapper.ts:17-24 | Same length, and element i is the mapping of input i with the same explicit id. |
| BackendSocialMediaMapper.ExplicitOwnerWins | backend/src/social-media/mappers/social-media.mapper.ts:13 | With a truthy explicit id the response does not depend on the loaded relation, and its userId is that id. |
| BackendSocialMediaMapper.CreatedEntityExample | backend/src/social-media/social-media.service.spec.ts:68-95 | {id: 1, name, url, user: {id: 1}} maps to {id: 1, name, url, userId: 1}. |
| Repository.AscendingIds | backend/src/users/users.service.ts:20-22 | Lists every member of the id set within the range exactly once, in strictly ascending order. |
| Entities.Merge | backend/src/users/users.service.ts:51 | A supplied field replaces the stored one, and an omitted field keeps it. |
| UsersModule.NotFoundMessage | backend/src/users/users.service.ts:32 | The message starts "User with id " and the next space-delimited word is the rendered id. |
| UsersModule.NotFoundMessageInjective | backend/src/users/users.service.ts:32 | Two NotFound messages are equal exactly when their ids are. |
| UsersModule.ApplyUpdate | backend/src/users/users.service.ts:51 | A partial update sets each supplied field and leaves each omitted field unchanged. |
| UsersModule.ApplyReplace | backend/src/users/users.service.ts:71 | A replacement sets all four scalar fields to the DTO's values. |
| UsersModule.ApplyUpdateIdempotent | backend/src/users/users.service.ts:51 | Applying the same partial update twice is the same as applying it once. |
| UsersModule.FullUpdateIsReplace | backend/src/users/users.service.ts:47-77 | A partial update that supplies all four fields equals a replacement. |
| UsersModule.Load | backend/src/users/users.service.ts:27-30 | The loaded entity carries the requested id and exactly the stored columns. |
| UsersModule.LoadAll | backend/src/users/users.service.ts:20-22 | Loads each listed id in order. |
| UsersModule.Responses | backend/src/users/users.service.ts:23 | One response per listed id, in order, each the mapped stored row of its id. |
| UsersModule.ListingCovers | backend/src/users/users.service.ts:20-23 | A listing with one response per id names every key the ids cover, and an empty table gives an empty listing. |
| UsersModule.ListAll | backend/src/users/users.service.ts:19-24 | For a table whose ids lie below the counter: every element is the mapped stored row of its id, every stored user appears, ids strictly ascend, and an empty table lists nothing. |
| UsersModule.UsersService.Valid | backend/src/entities/user.entity.ts:6-7 | The invariant every operation keeps: the counter is at least 1 and every stored id was issued by the auto-increment key, so lies in [1, nextId). |
| UsersModule.UsersService.constructor | backend/src/users/users.service.ts:14-17 | The service starts over a given table whose ids all lie below the counter. |
| UsersModule.UsersService.FindAll | backend/src/users/users.service.ts:19-24 | Every element is the mapped stored row of its id, every stored user appears, ids strictly ascend, and an empty table gives an empty list rather than an error. |
| UsersModule.UsersService.FindOne | backend/src/users/users.service.ts:26-35 | Success exactly when the id is stored, with the mapped stored row. Otherwise NotFound "User with id {id} not found". |
| UsersModule.UsersService.FindOneAgreesWithFindAll | backend/src/users/users.service.ts:19-35 | findOne succeeds exactly when findAll lists that id, and its response is the listed one. |
| UsersModule.UsersService.Create | backend/src/users/users.service.ts:37-45 | Adds exactly one row under the counter's next id, which is at least 1 and above every id issued before, and advances the counter by one. The row holds the DTO's four fields. Every other row is untouched. The returned DTO is that row, and findOne on the new id now gives it. |
| UsersModule.UsersService.Update | backend/src/users/users.service.ts:47-60 | Writes first and re-reads after. On a stored id only the supplied fields change. On an absent id the table is unchanged and the result is NotFound. The result always equals the findOne that follows. |
| UsersModule.UsersService.Replace | backend/src/users/users.service.ts:62-77 | Checks first: an absent id gives NotFound with the table unchanged. Otherwise all four fields are overwritten, the id is kept, and the new state is returned. |
| UsersModule.UsersService.Delete | backend/src/users/users.service.ts:79-85 | An absent id gives NotFound with the table unchanged. Otherwise exactly that row is removed. Either way, findOne on the id now gives NotFound. |
| SocialMediaModule.UserNotFoundMessage | src/social-media/social-media.service.ts:32 | The message starts "User with id " and the next space-delimited word is the rendered user id. |
| SocialMediaModule.UserNotFoundMessageInjective | src/social-media/social-media.service.ts:32 | Two such messages are equal exactly when their user ids are. |
| SocialMediaModule.NotFoundMessage | src/social-media/social-media.service.ts:59 | The message starts "Social media with id ", the next word is the rendered record id, and the text after " not found for user " is the rendered user id. |
| SocialMediaModule.NotFoundMessageInjective | src/social-media/social-media.service.ts:59 | Two such messages are equal exactly when both the record ids and the user ids are. |
| SocialMediaModule.ApplyUpdate | src/social-media/social-media.service.ts:76 | Only the supplied name and/or url change (through `Entities.Merge`), and the owner never does. |
| SocialMediaModule.SocialMediaService.Valid | src/entities/social-media.entity.ts:7-17 | The invariant every operation keeps: every record id was issued by the auto-increment key, so lies in [1, nextId), and every record's mandatory owner exists in the users table. |
| SocialMediaModule.SocialMediaService.constructor | src/social-media/social-media.service.ts:14-19 | The service starts over given tables in which ids lie below the counter and every owner exists. |
| SocialMediaModule.SocialMediaService.LoadWithUser | src/social-media/social-media.service.ts:44-47 | The loaded entity carries the stored id, name and url, and its owner relation is loaded with the stored owner id. |
| SocialMediaModule.SocialMediaService.LoadAllWithUser | src/social-media/social-media.service.ts:22-25 | Loads each listed id in order, with its owner. |
| SocialMediaModule.SocialMediaService.OwnedIds | src/social-media/social-media.service.ts:22-25 | Lists exactly the ids of the records owned by the user, once each, ascending. |
| SocialMediaModule.SocialMediaService.Responses | src/social-media/social-media.service.ts:26 | One response per listed id, in order, each the mapped stored record of its id. |
| SocialMediaModule.SocialMediaService.FindByUser | src/social-media/social-media.service.ts:21-27 | Exactly the records owned by the user, each mapped from its stored row, in ascending id order. An unknown user gives an empty list rather than an error. Being a function, it changes neither table. |
| SocialMediaModule.SocialMediaService.FindOneByUser | src/social-media/social-media.service.ts:52-63 | Success exactly when the record exists and belongs to the user, so a record of another owner is not found. The response's userId is the user. Otherwise NotFound "Social media with id {id} not found for user {userId}". |
| SocialMediaModule.SocialMediaService.FindOneAgreesWithFindByUser | src/social-media/social-media.service.ts:21-63 | findOneByUser succeeds exactly when findByUser lists that id, and its response is the listed one. |
| SocialMediaModule.SocialMediaService.Create | src/social-media/social-media.service.ts:29-50 | A missing owner gives BadRequest "User with id {userId} not found" (not NotFound), and nothing is saved. Otherwise exactly one record is added under the counter's next id (above every id issued before, and the counter advances by one), with the DTO's name and url and owner userId. The returned userId is userId, and findOneByUser now gives the result. |
| SocialMediaModule.SocialMediaService.UpdateByUser | src/social-media/social-media.service.ts:65-83 | A missing or foreign-owned record gives NotFound with the store unchanged. Otherwise only the supplied fields of that record change. The result equals the findOneByUser that follows. |
| SocialMediaModule.SocialMediaService.DeleteByUser | src/social-media/social-media.service.ts:85-95 | Checks ownership, then removes exactly that record. Afterwards findOneByUser on it gives NotFound, and all other records are unchanged. |

## Left out

- Controllers, routing, HTTP status codes, module and dependency-injection wiring, and configuration. They only delegate to the services or configure the framework.
- PositiveIntPipe.Transform: the model is `transform` applied to the raw parameter string. The app-wide `ValidationPipe` with `transform: true` (backend/src/social-media/social-media.module.ts:14-21) runs before a parameter's own pipe and may already have coerced a `number` parameter with JavaScript's `+value`, so on a route the pipe may receive a number rather than the string ("12abc" would then arrive as NaN, "0x10" as 16, "1e3" as 1000). That coercion is not modelled.
- The class-validator decorators on the DTOs (`@IsEmail`, `@IsUrl`, `@IsNotEmpty`). They belong to a foreign library. DTOs here are plain records of strings.
- async/await and concurrency. Each service call is one atomic step here, so the window between a check and the following write is not modelled.
- SQL, eager relation loading and the database itself. A table is a `map`, and an id is issued by an auto-increment counter that is never reused.
- UsersModule.UsersService.FindAll: the users' `socialMedia` relation is not loaded. Under the assumption that the backend user mapper equals the `src/` one, which drops the relation, the response is the same; if the backend mapper maps the relation, the responses here lack it.
- SocialMediaModule.SocialMediaService.UpdateByUser: TypeORM's `UpdateValuesMissingError` on an update that supplies neither name nor url (src/social-media/social-media.service.ts:76) is not modelled. Such an update is taken to write nothing and to return the record unchanged.
- UsersModule.UsersService.Delete: a refusal by the store's foreign key is not modelled. A social media record's owner is a non-null many-to-one relation without `onDelete` (src/entities/social-media.entity.ts:16), so the database rejects deleting a user who still owns records (backend/src/users/users.service.ts:84). The users model has no social media table, so here such a delete succeeds and removes the row.
- UsersModule.UsersService.Update: TypeORM's `UpdateValuesMissingError` on an update that supplies no field at all is not modelled. Such an update is taken to write nothing.
- UsersModule.UsersService.Create and SocialMediaModule.SocialMediaService.Create: the re-read after save is taken to succeed (the source asserts it with `!`).
- PositiveIntPipe.ParseInt: JavaScript numbers are unbounded integers here. The rounding of very long digit strings to a double, and -0, are not modelled ("-0" parses to 0, which is rejected the same way). For the same reason Decimal.IntToString renders every id in plain digits, whereas a template literal switches to exponent form ("1e+21") at 10^21 and above, and the pipe lets such ids through; the messages built for them are not modelled.
- PositiveIntPipe.IsStrWhiteSpaceChar: strings are sequences of Unicode scalar values, not UTF-16 code units.
- BackendSocialMediaMapper.Truthy: an explicit `userId` that is NaN (also falsy in JavaScript) is not modelled. The optional id is an integer or absent.
- The backend user mapper and `ReplaceUserDto` are not part of this model. The former is taken to equal the `src/` user mapper, and the latter to carry the four scalar fields.
- The React front end is not part of this model. Its components only issue HTTP calls and render results.
