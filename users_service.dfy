/**
 * UsersService of backend/src/users/users.service.ts: CRUD over the users
 * table, held here as a map from id to row plus the auto-increment counter.
 */
module UsersModule {
  import opened Wrappers
  import opened Decimal
  import opened Messages
  import opened Entities
  import UserMapper
  import Repository

  /** The message of every NotFoundException the service throws. */
  function NotFoundMessage(id: int): (m: string)
    ensures |m| > 13 && m[..13] == "User with id "
    ensures Word(m[13..]) == IntToString(id)
  {
    var m := "User with id " + IntToString(id) + " not found";
    assert m[13..] == IntToString(id) + " not found";
    IntToStringNoSpace(id);
    WordOfSplit(IntToString(id), " not found");
    m
  }

  /** The message names the id: distinct ids give distinct messages. */
  lemma NotFoundMessageInjective(a: int, b: int)
    ensures NotFoundMessage(a) == NotFoundMessage(b) <==> a == b
  {
    IntToStringInjective(a, b);
  }

  /** `dto` is the response for the stored row `row` under key `id`. */
  predicate Shows(dto: ResponseUserDto, id: int, row: UserRow) {
    dto == ResponseUserDto(id, row.firstName, row.lastName, row.phone, row.email)
  }

  /** The row after `repository.update(id, dto)` with a partial DTO. */
  function ApplyUpdate(row: UserRow, dto: UpdateUserDto): (r: UserRow)
    ensures dto.firstName.None? ==> r.firstName == row.firstName
    ensures dto.lastName.None? ==> r.lastName == row.lastName
    ensures dto.phone.None? ==> r.phone == row.phone
    ensures dto.email.None? ==> r.email == row.email
    ensures dto.firstName.Some? ==> r.firstName == dto.firstName.value
    ensures dto.lastName.Some? ==> r.lastName == dto.lastName.value
    ensures dto.phone.Some? ==> r.phone == dto.phone.value
    ensures dto.email.Some? ==> r.email == dto.email.value
  {
    UserRow(
      Merge(dto.firstName, row.firstName),
      Merge(dto.lastName, row.lastName),
      Merge(dto.phone, row.phone),
      Merge(dto.email, row.email))
  }

  /** The row after `repository.update(id, dto)` with a full replacement DTO. */
  function ApplyReplace(dto: ReplaceUserDto): (r: UserRow)
    ensures r.firstName == dto.firstName && r.lastName == dto.lastName
    ensures r.phone == dto.phone && r.email == dto.email
  {
    UserRow(dto.firstName, dto.lastName, dto.phone, dto.email)
  }

  /** Applying the same partial update twice changes nothing more. */
  lemma ApplyUpdateIdempotent(row: UserRow, dto: UpdateUserDto)
    ensures ApplyUpdate(ApplyUpdate(row, dto), dto) == ApplyUpdate(row, dto)
  {
  }

  /** A partial update that supplies every field is a replacement. */
  lemma FullUpdateIsReplace(row: UserRow, dto: ReplaceUserDto)
    ensures ApplyUpdate(row, UpdateUserDto(Some(dto.firstName), Some(dto.lastName), Some(dto.phone), Some(dto.email)))
      == ApplyReplace(dto)
  {
  }

  /** The entity TypeORM loads for a stored id (the socialMedia relation is not modelled). */
  function Load(users: map<int, UserRow>, id: int): (u: User)
    requires id in users
    ensures u.id == id
    ensures UserRow(u.firstName, u.lastName, u.phone, u.email) == users[id]
  {
    var row := users[id];
    User(id, row.firstName, row.lastName, row.phone, row.email, None)
  }

  function LoadAll(users: map<int, UserRow>, ids: seq<int>): (us: seq<User>)
    requires forall i :: 0 <= i < |ids| ==> ids[i] in users
    ensures |us| == |ids|
    ensures forall i :: 0 <= i < |ids| ==> us[i] == Load(users, ids[i])
  {
    if ids == [] then [] else [Load(users, ids[0])] + LoadAll(users, ids[1..])
  }

  /** The mapped responses of the listed stored users, in the same order. */
  function Responses(users: map<int, UserRow>, ids: seq<int>): (r: seq<ResponseUserDto>)
    requires forall i :: 0 <= i < |ids| ==> ids[i] in users
    ensures |r| == |ids|
    ensures forall i :: 0 <= i < |r| ==> r[i].id == ids[i] && Shows(r[i], ids[i], users[ids[i]])
  {
    UserMapper.ToResponseDtoArray(LoadAll(users, ids))
  }

  /** What `find()` returns for a table whose ids lie in [1, nextId), mapped. */
  function ListAll(users: map<int, UserRow>, nextId: int): (r: seq<ResponseUserDto>)
    requires forall id :: id in users ==> 1 <= id < nextId
    ensures forall i :: 0 <= i < |r| ==> r[i].id in users && Shows(r[i], r[i].id, users[r[i].id])
    ensures forall id :: id in users ==> exists i :: 0 <= i < |r| && r[i].id == id
    ensures forall i, j :: 0 <= i < j < |r| ==> r[i].id < r[j].id
    ensures users == map[] ==> r == []
  {
    var ids := Repository.AscendingIds(users.Keys, 1, nextId);
    var r := Responses(users, ids);
    ListingCovers(users.Keys, ids, r);
    r
  }

  /**
   * A listing with one response per id covers every key the ids cover, and
   * an empty key set gives an empty listing.
   */
  lemma ListingCovers(keys: set<int>, ids: seq<int>, r: seq<ResponseUserDto>)
    requires |r| == |ids| && forall i :: 0 <= i < |r| ==> r[i].id == ids[i]
    requires forall i :: 0 <= i < |ids| ==> ids[i] in keys
    requires forall k :: k in keys ==> k in ids
    ensures forall k :: k in keys ==> exists i :: 0 <= i < |r| && r[i].id == k
    ensures keys == {} ==> r == []
  {
    forall k | k in keys ensures exists i :: 0 <= i < |r| && r[i].id == k {
      var i :| 0 <= i < |ids| && ids[i] == k;
      assert r[i].id == k;
    }
    if r != [] {
      assert ids[0] in keys;
    }
  }

  class UsersService {
    /** The users table: id -> row. */
    var users: map<int, UserRow>
    /** The next id the auto-increment primary key will issue. */
    var nextId: int

    /** Every stored id was issued by the auto-increment counter. */
    ghost predicate Valid()
      reads this
    {
      && 1 <= nextId
      && forall id :: id in users ==> 1 <= id < nextId
    }

    constructor (users: map<int, UserRow>, nextId: int)
      requires 1 <= nextId
      requires forall id :: id in users ==> 1 <= id < nextId
      ensures Valid()
      ensures this.users == users && this.nextId == nextId
    {
      this.users := users;
      this.nextId := nextId;
    }

    /**
     * findAll: every stored user, mapped, once each, in ascending id order;
     * an empty table gives an empty list.
     */
    function FindAll(): (r: seq<ResponseUserDto>)
      reads this
      requires Valid()
      ensures forall i :: 0 <= i < |r| ==> r[i].id in users && Shows(r[i], r[i].id, users[r[i].id])
      ensures forall id :: id in users ==> exists i :: 0 <= i < |r| && r[i].id == id
      ensures forall i, j :: 0 <= i < j < |r| ==> r[i].id < r[j].id
      ensures users == map[] ==> r == []
    {
      ListAll(users, nextId)
    }

    /** findOne: NotFound for an absent id, else the mapped stored user. */
    function FindOne(id: int): (r: Result<ResponseUserDto>)
      reads this
      ensures r.Ok? <==> id in users
      ensures r.Ok? ==> Shows(r.value, id, users[id])
      ensures r.Err? ==> r.error == NotFound(NotFoundMessage(id))
    {
      if id !in users then Err(NotFound(NotFoundMessage(id)))
      else Ok(UserMapper.ToResponseDto(Load(users, id)))
    }

    /** A user is listed by findAll exactly when findOne finds it, and with the same response. */
    lemma FindOneAgreesWithFindAll(id: int)
      requires Valid()
      ensures FindOne(id).Ok? <==> exists i :: 0 <= i < |FindAll()| && FindAll()[i].id == id
      ensures FindOne(id).Ok? ==> FindOne(id).value in FindAll()
    {
      var all := FindAll();
      if id in users {
        var i :| 0 <= i < |all| && all[i].id == id;
        assert all[i] == FindOne(id).value;
      }
    }

    /**
     * create: saves one new row under a fresh id with the DTO's four fields,
     * re-reads it and returns it; the other rows are untouched.
     */
    method Create(dto: CreateUserDto) returns (r: ResponseUserDto)
      requires Valid()
      modifies this
      ensures Valid()
      ensures r.id !in old(users) && r.id >= 1
      ensures r.id == old(nextId) && nextId == old(nextId) + 1
      ensures users == old(users)[r.id := UserRow(dto.firstName, dto.lastName, dto.phone, dto.email)]
      ensures r == ResponseUserDto(r.id, dto.firstName, dto.lastName, dto.phone, dto.email)
      ensures FindOne(r.id) == Ok(r)
    {
      // repository.create + save: the auto-increment key issues the next id
      var id := nextId;
      users := users[id := UserRow(dto.firstName, dto.lastName, dto.phone, dto.email)];
      nextId := nextId + 1;
      // findOne({ where: { id: savedUser.id } }) always finds the row just saved
      r := UserMapper.ToResponseDto(Load(users, id));
    }

    /**
     * update: writes the partial DTO first (a no-op on an absent id), then
     * re-reads and only then reports NotFound.
     */
    method Update(id: int, dto: UpdateUserDto) returns (r: Result<ResponseUserDto>)
      requires Valid()
      modifies this
      ensures Valid() && nextId == old(nextId)
      ensures r.Ok? <==> id in old(users)
      ensures id in old(users) ==> users == old(users)[id := ApplyUpdate(old(users)[id], dto)]
      ensures id !in old(users) ==> users == old(users) && r == Err(NotFound(NotFoundMessage(id)))
      ensures r == FindOne(id)
    {
      // repository.update(id, dto) affects no row when the id is absent
      if id in users {
        users := users[id := ApplyUpdate(users[id], dto)];
      }
      if id !in users {
        return Err(NotFound(NotFoundMessage(id)));
      }
      r := Ok(UserMapper.ToResponseDto(Load(users, id)));
    }

    /**
     * replace: checks existence first, then overwrites all four fields and
     * returns the re-read user.
     */
    method Replace(id: int, dto: ReplaceUserDto) returns (r: Result<ResponseUserDto>)
      requires Valid()
      modifies this
      ensures Valid() && nextId == old(nextId)
      ensures r.Ok? <==> id in old(users)
      ensures id in old(users) ==> users == old(users)[id := ApplyReplace(dto)]
      ensures id in old(users) ==> r == Ok(ResponseUserDto(id, dto.firstName, dto.lastName, dto.phone, dto.email))
      ensures id !in old(users) ==> users == old(users) && r == Err(NotFound(NotFoundMessage(id)))
    {
      if id !in users {
        return Err(NotFound(NotFoundMessage(id)));
      }
      users := users[id := ApplyReplace(dto)];
      r := Ok(UserMapper.ToResponseDto(Load(users, id)));
    }

    /**
     * delete: checks existence first, then removes the row; afterwards
     * findOne on that id reports NotFound and every other row is unchanged.
     */
    method Delete(id: int) returns (r: Result<()>)
      requires Valid()
      modifies this
      ensures Valid() && nextId == old(nextId)
      ensures r.Ok? <==> id in old(users)
      ensures r.Err? ==> r.error == NotFound(NotFoundMessage(id))
      ensures users == old(users) - {id}
      ensures FindOne(id) == Err(NotFound(NotFoundMessage(id)))
    {
      if id !in users {
        return Err(NotFound(NotFoundMessage(id)));
      }
      users := users - {id};
      r := Ok(());
    }
  }
}
