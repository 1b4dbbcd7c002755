/** The user mapper of src/users/mappers/user.mapper.ts. */
module UserMapper {
  import opened Entities

  /**
   * Copies the id and the four scalar fields. The relation is not carried
   * over, although ResponseUserDto declares a `socialMedia` field.
   */
  function ToResponseDto(user: User): (r: ResponseUserDto)
    ensures r.id == user.id
    ensures r.firstName == user.firstName && r.lastName == user.lastName
    ensures r.phone == user.phone && r.email == user.email
  {
    ResponseUserDto(user.id, user.firstName, user.lastName, user.phone, user.email)
  }

  /** `users.map(toResponseDto)`: same length, same order, element by element. */
  function ToResponseDtoArray(users: seq<User>): (r: seq<ResponseUserDto>)
    ensures |r| == |users|
    ensures forall i :: 0 <= i < |r| ==> r[i] == ToResponseDto(users[i])
  {
    if users == [] then [] else [ToResponseDto(users[0])] + ToResponseDtoArray(users[1..])
  }

  /** Two users map to the same DTO exactly when they agree on the five copied fields. */
  lemma ToResponseDtoEqualIff(u: User, v: User)
    ensures ToResponseDto(u) == ToResponseDto(v) <==>
      u.id == v.id && u.firstName == v.firstName && u.lastName == v.lastName &&
      u.phone == v.phone && u.email == v.email
  {
  }
}
