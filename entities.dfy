/**
 * The persisted entities (backend/src/entities/user.entity.ts,
 * src/entities/social-media.entity.ts), the rows the store keeps for them,
 * and the request and response shapes of the two resources.
 */
module Entities {
  import opened Wrappers

  /**
   * A User as TypeORM hands it over: every scalar column is non-null; the
   * `socialMedia` side of the one-to-many relation is None when it was not loaded.
   */
  datatype User = User(
    id: int,
    firstName: string,
    lastName: string,
    phone: string,
    email: string,
    socialMedia: Option<seq<SocialMedia>>)

  /** A SocialMedia entity; `user` is the mandatory owner, None when the relation was not loaded. */
  datatype SocialMedia = SocialMedia(
    id: int,
    name: string,
    url: string,
    user: Option<User>)

  /** The columns of a row of the users table; the id is the table's key. */
  datatype UserRow = UserRow(firstName: string, lastName: string, phone: string, email: string)

  /** The columns of a row of the social media table, including the owner's foreign key. */
  datatype SocialMediaRow = SocialMediaRow(name: string, url: string, userId: int)

  /** The body of a user creation (all four fields present). */
  datatype CreateUserDto = CreateUserDto(firstName: string, lastName: string, phone: string, email: string)

  /** The body of a full replacement of a user (all four fields present). */
  datatype ReplaceUserDto = ReplaceUserDto(firstName: string, lastName: string, phone: string, email: string)

  /** The body of a partial update of a user: an omitted field is None. */
  datatype UpdateUserDto = UpdateUserDto(
    firstName: Option<string>,
    lastName: Option<string>,
    phone: Option<string>,
    email: Option<string>)

  /** The body of a social media creation. */
  datatype CreateSocialMediaDto = CreateSocialMediaDto(name: string, url: string)

  /** The body of a partial update of a social media record. */
  datatype UpdateSocialMediaDto = UpdateSocialMediaDto(name: Option<string>, url: Option<string>)

  /** What the user mapper produces: exactly the five scalar fields. */
  datatype ResponseUserDto = ResponseUserDto(
    id: int,
    firstName: string,
    lastName: string,
    phone: string,
    email: string)

  /** What the social media mapper of src/ produces: the owner as a plain id. */
  datatype ResponseSocialMediaDto = ResponseSocialMediaDto(id: int, name: string, url: string, userId: int)

  /** A field of a partial update: a supplied value replaces the stored one; an omitted one keeps it. */
  function Merge<T>(supplied: Option<T>, stored: T): (r: T)
    ensures supplied.Some? ==> r == supplied.value
    ensures supplied.None? ==> r == stored
  {
    match supplied
    case Some(v) => v
    case None => stored
  }
}
