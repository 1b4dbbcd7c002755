/**
 * SocialMediaService of src/social-media/social-media.service.ts: social media
 * records scoped under their owning user, over two tables (social media and
 * users) held as maps from id to row, plus the auto-increment counter of the
 * social media table.
 */
module SocialMediaModule {
  import opened Wrappers
  import opened Decimal
  import opened Messages
  import opened Entities
  import SocialMediaMapper
  import Repository

  /** The BadRequest message of a creation under a missing user. */
  function UserNotFoundMessage(userId: int): (m: string)
    ensures |m| > 13 && m[..13] == "User with id "
    ensures Word(m[13..]) == IntToString(userId)
  {
    var m := "User with id " + IntToString(userId) + " not found";
    assert m[13..] == IntToString(userId) + " not found";
    IntToStringNoSpace(userId);
    WordOfSplit(IntToString(userId), " not found");
    m
  }

  /** The message names the missing user: distinct ids give distinct messages. */
  lemma UserNotFoundMessageInjective(a: int, b: int)
    ensures UserNotFoundMessage(a) == UserNotFoundMessage(b) <==> a == b
  {
    IntToStringInjective(a, b);
  }

  /** The NotFound message of the owner-scoped lookups. */
  function NotFoundMessage(socialMediaId: int, userId: int): (m: string)
    ensures |m| > 21 && m[..21] == "Social media with id "
    ensures Word(m[21..]) == IntToString(socialMediaId)
    ensures 21 + |IntToString(socialMediaId)| + 20 <= |m|
    ensures m[21 + |IntToString(socialMediaId)| + 20..] == IntToString(userId)
  {
    var a, b := IntToString(socialMediaId), IntToString(userId);
    var m := "Social media with id " + a + " not found for user " + b;
    MessageLayout("Social media with id ", a, " not found for user ", b);
    IntToStringNoSpace(socialMediaId);
    WordOfSplit(a, " not found for user " + b);
    m
  }

  /** The message names both the record and the user: distinct pairs give distinct messages. */
  lemma NotFoundMessageInjective(s1: int, u1: int, s2: int, u2: int)
    ensures NotFoundMessage(s1, u1) == NotFoundMessage(s2, u2) <==> s1 == s2 && u1 == u2
  {
    if NotFoundMessage(s1, u1) == NotFoundMessage(s2, u2) {
      IntToStringInjective(s1, s2);
      IntToStringInjective(u1, u2);
    }
  }

  /** `dto` is the response for the stored row `row` under key `id`. */
  predicate Shows(dto: ResponseSocialMediaDto, id: int, row: SocialMediaRow) {
    dto == ResponseSocialMediaDto(id, row.name, row.url, row.userId)
  }

  /** The row after `repository.update(id, dto)`: only supplied fields change, never the owner. */
  function ApplyUpdate(row: SocialMediaRow, dto: UpdateSocialMediaDto): (r: SocialMediaRow)
    ensures r.userId == row.userId
    ensures r.name == (if dto.name.Some? then dto.name.value else row.name)
    ensures r.url == (if dto.url.Some? then dto.url.value else row.url)
  {
    SocialMediaRow(Merge(dto.name, row.name), Merge(dto.url, row.url), row.userId)
  }

  class SocialMediaService {
    /** The social media table: id -> row (with the owner's id). */
    var socialMedia: map<int, SocialMediaRow>
    /** The users table, which this service only reads. */
    var users: map<int, UserRow>
    /** The next id the social media table's auto-increment key will issue. */
    var nextId: int

    /**
     * Ids were issued by the counter, and every record's owner exists (the
     * store's non-null foreign key).
     */
    ghost predicate Valid()
      reads this
    {
      && 1 <= nextId
      && (forall id :: id in socialMedia ==> 1 <= id < nextId)
      && (forall id :: id in socialMedia ==> socialMedia[id].userId in users)
    }

    constructor (socialMedia: map<int, SocialMediaRow>, users: map<int, UserRow>, nextId: int)
      requires 1 <= nextId
      requires forall id :: id in socialMedia ==> 1 <= id < nextId
      requires forall id :: id in socialMedia ==> socialMedia[id].userId in users
      ensures Valid()
      ensures this.socialMedia == socialMedia && this.users == users && this.nextId == nextId
    {
      this.socialMedia := socialMedia;
      this.users := users;
      this.nextId := nextId;
    }

    /** The record `id` exists and belongs to `userId`. */
    predicate Owns(userId: int, id: int)
      reads this
    {
      id in socialMedia && socialMedia[id].userId == userId
    }

    /** The entity TypeORM loads for a stored id with `relations: ['user']`. */
    function LoadWithUser(id: int): (sm: SocialMedia)
      reads this
      requires Valid() && id in socialMedia
      ensures sm.id == id && sm.name == socialMedia[id].name && sm.url == socialMedia[id].url
      ensures sm.user.Some? && sm.user.value.id == socialMedia[id].userId
    {
      var row := socialMedia[id];
      var owner := users[row.userId];
      SocialMedia(id, row.name, row.url,
        Some(User(row.userId, owner.firstName, owner.lastName, owner.phone, owner.email, None)))
    }

    function LoadAllWithUser(ids: seq<int>): (sms: seq<SocialMedia>)
      reads this
      requires Valid()
      requires forall i :: 0 <= i < |ids| ==> ids[i] in socialMedia
      ensures |sms| == |ids|
      ensures forall i :: 0 <= i < |ids| ==> sms[i] == LoadWithUser(ids[i])
    {
      if ids == [] then [] else [LoadWithUser(ids[0])] + LoadAllWithUser(ids[1..])
    }

    /**
     * findByUser: exactly the records owned by `userId`, mapped, in ascending
     * id order; an unknown user gets an empty list, not an error.
     */
    function FindByUser(userId: int): (r: seq<ResponseSocialMediaDto>)
      reads this
      requires Valid()
      ensures forall i :: 0 <= i < |r| ==> Owns(userId, r[i].id) && Shows(r[i], r[i].id, socialMedia[r[i].id])
      ensures forall id :: Owns(userId, id) ==> exists i :: 0 <= i < |r| && r[i].id == id
      ensures forall i, j :: 0 <= i < j < |r| ==> r[i].id < r[j].id
      ensures userId !in users ==> r == []
    {
      Responses(OwnedIds(userId))
    }

    /** The mapped responses of the listed stored records, in the same order. */
    function Responses(ids: seq<int>): (r: seq<ResponseSocialMediaDto>)
      reads this
      requires Valid()
      requires forall i :: 0 <= i < |ids| ==> ids[i] in socialMedia
      ensures |r| == |ids|
      ensures forall i :: 0 <= i < |r| ==> r[i].id == ids[i] && Shows(r[i], ids[i], socialMedia[ids[i]])
    {
      SocialMediaMapper.ToResponseDtoArray(LoadAllWithUser(ids))
    }

    /** The ids of the records owned by `userId`, ascending. */
    function OwnedIds(userId: int): (ids: seq<int>)
      reads this
      requires Valid()
      ensures forall i :: 0 <= i < |ids| ==> Owns(userId, ids[i])
      ensures forall id :: Owns(userId, id) ==> id in ids
      ensures forall i, j :: 0 <= i < j < |ids| ==> ids[i] < ids[j]
    {
      Repository.AscendingIds(set id | id in socialMedia && socialMedia[id].userId == userId, 1, nextId)
    }

    /** findOneByUser: NotFound unless the record exists and belongs to `userId`. */
    function FindOneByUser(userId: int, socialMediaId: int): (r: Result<ResponseSocialMediaDto>)
      reads this
      requires Valid()
      ensures r.Ok? <==> Owns(userId, socialMediaId)
      ensures r.Ok? ==> Shows(r.value, socialMediaId, socialMedia[socialMediaId]) && r.value.userId == userId
      ensures r.Err? ==> r.error == NotFound(NotFoundMessage(socialMediaId, userId))
    {
      if !Owns(userId, socialMediaId) then Err(NotFound(NotFoundMessage(socialMediaId, userId)))
      else Ok(SocialMediaMapper.ToResponseDto(LoadWithUser(socialMediaId)))
    }

    /** findByUser lists a record exactly when findOneByUser finds it, and with the same response. */
    lemma FindOneAgreesWithFindByUser(userId: int, socialMediaId: int)
      requires Valid()
      ensures FindOneByUser(userId, socialMediaId).Ok? <==>
        exists i :: 0 <= i < |FindByUser(userId)| && FindByUser(userId)[i].id == socialMediaId
      ensures FindOneByUser(userId, socialMediaId).Ok? ==>
        FindOneByUser(userId, socialMediaId).value in FindByUser(userId)
    {
      var all := FindByUser(userId);
      if Owns(userId, socialMediaId) {
        var i :| 0 <= i < |all| && all[i].id == socialMediaId;
        assert all[i] == FindOneByUser(userId, socialMediaId).value;
      }
    }

    /**
     * create: a missing owner is a BadRequest and nothing is saved; otherwise
     * one record is added under a fresh id with the DTO's name and url and
     * owner `userId`, and its re-read is returned.
     */
    method Create(userId: int, dto: CreateSocialMediaDto) returns (r: Result<ResponseSocialMediaDto>)
      requires Valid()
      modifies this`socialMedia, this`nextId
      ensures Valid()
      ensures r.Ok? <==> userId in users
      ensures userId !in users ==>
        r == Err(BadRequest(UserNotFoundMessage(userId))) && socialMedia == old(socialMedia) && nextId == old(nextId)
      ensures r.Ok? ==> r.value.id !in old(socialMedia) && r.value.id >= 1
      ensures r.Ok? ==> r.value.id == old(nextId) && nextId == old(nextId) + 1
      ensures r.Ok? ==> socialMedia == old(socialMedia)[r.value.id := SocialMediaRow(dto.name, dto.url, userId)]
      ensures r.Ok? ==> r.value == ResponseSocialMediaDto(r.value.id, dto.name, dto.url, userId)
      ensures r.Ok? ==> FindOneByUser(userId, r.value.id) == r
    {
      if userId !in users {
        return Err(BadRequest(UserNotFoundMessage(userId)));
      }
      // repository.create + save: the auto-increment key issues the next id
      var id := nextId;
      socialMedia := socialMedia[id := SocialMediaRow(dto.name, dto.url, userId)];
      nextId := nextId + 1;
      // findOne({ where: { id }, relations: ['user'] }) finds the record just saved
      r := Ok(SocialMediaMapper.ToResponseDto(LoadWithUser(id)));
    }

    /**
     * updateByUser: a missing or foreign-owned record is NotFound and nothing
     * changes; otherwise only the supplied name and/or url change, and the
     * re-read record is returned.
     */
    method UpdateByUser(userId: int, socialMediaId: int, dto: UpdateSocialMediaDto)
      returns (r: Result<ResponseSocialMediaDto>)
      requires Valid()
      modifies this`socialMedia
      ensures Valid()
      ensures r.Ok? <==> old(Owns(userId, socialMediaId))
      ensures r.Err? ==> r.error == NotFound(NotFoundMessage(socialMediaId, userId)) && socialMedia == old(socialMedia)
      ensures r.Ok? ==>
        socialMedia == old(socialMedia)[socialMediaId := ApplyUpdate(old(socialMedia)[socialMediaId], dto)]
      ensures r == FindOneByUser(userId, socialMediaId)
    {
      if !Owns(userId, socialMediaId) {
        return Err(NotFound(NotFoundMessage(socialMediaId, userId)));
      }
      socialMedia := socialMedia[socialMediaId := ApplyUpdate(socialMedia[socialMediaId], dto)];
      // the re-read goes by id alone; the owner did not change
      r := Ok(SocialMediaMapper.ToResponseDto(LoadWithUser(socialMediaId)));
    }

    /**
     * deleteByUser: checks ownership, then deletes by id alone; afterwards the
     * record is NotFound for its owner and every other record is unchanged.
     */
    method DeleteByUser(userId: int, socialMediaId: int) returns (r: Result<()>)
      requires Valid()
      modifies this`socialMedia
      ensures Valid()
      ensures r.Ok? <==> old(Owns(userId, socialMediaId))
      ensures r.Err? ==> r.error == NotFound(NotFoundMessage(socialMediaId, userId))
      ensures socialMedia == if r.Ok? then old(socialMedia) - {socialMediaId} else old(socialMedia)
      ensures FindOneByUser(userId, socialMediaId) == Err(NotFound(NotFoundMessage(socialMediaId, userId)))
    {
      if !Owns(userId, socialMediaId) {
        return Err(NotFound(NotFoundMessage(socialMediaId, userId)));
      }
      socialMedia := socialMedia - {socialMediaId};
      r := Ok(());
    }
  }
}
