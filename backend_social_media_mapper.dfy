/**
 * The social media mapper of backend/src/social-media/mappers/social-media.mapper.ts,
 * which takes an optional explicit owner id.
 */
module BackendSocialMediaMapper {
  import opened Wrappers
  import Entities
  type SocialMedia = Entities.SocialMedia
  type User = Entities.User

  /** The backend's response shape: `userId` may come out undefined (None). */
  datatype ResponseSocialMediaDto = ResponseSocialMediaDto(id: int, name: string, url: string, userId: Option<int>)

  /** JavaScript truthiness of an optional number: undefined and 0 are falsy. */
  predicate Truthy(userId: Option<int>) {
    userId.Some? && userId.value != 0
  }

  /** `userId || socialMedia.user?.id`. */
  function OwnerId(socialMedia: SocialMedia, userId: Option<int>): (r: Option<int>)
    ensures Truthy(userId) ==> r == userId
    ensures !Truthy(userId) && socialMedia.user.Some? ==> r == Some(socialMedia.user.value.id)
    ensures !Truthy(userId) && socialMedia.user.None? ==> r == None
  {
    if Truthy(userId) then userId
    else match socialMedia.user
      case Some(u) => Some(u.id)
      case None => None
  }

  /** Copies id, name and url; the owner id is the explicit one when truthy, else the relation's. */
  function ToResponseDto(socialMedia: SocialMedia, userId: Option<int>): (r: ResponseSocialMediaDto)
    ensures r.id == socialMedia.id && r.name == socialMedia.name && r.url == socialMedia.url
    ensures r.userId == OwnerId(socialMedia, userId)
  {
    ResponseSocialMediaDto(socialMedia.id, socialMedia.name, socialMedia.url, OwnerId(socialMedia, userId))
  }

  /** `socialMedias.map(sm => toResponseDto(sm, userId))`. */
  function ToResponseDtoArray(socialMedias: seq<SocialMedia>, userId: Option<int>): (r: seq<ResponseSocialMediaDto>)
    ensures |r| == |socialMedias|
    ensures forall i :: 0 <= i < |r| ==> r[i] == ToResponseDto(socialMedias[i], userId)
  {
    if socialMedias == [] then []
    else [ToResponseDto(socialMedias[0], userId)] + ToResponseDtoArray(socialMedias[1..], userId)
  }

  /** A truthy explicit id wins over whatever relation is loaded. */
  lemma ExplicitOwnerWins(socialMedia: SocialMedia, other: Option<User>, userId: int)
    requires userId != 0
    ensures ToResponseDto(socialMedia, Some(userId)) == ToResponseDto(socialMedia.(user := other), Some(userId))
    ensures ToResponseDto(socialMedia, Some(userId)).userId == Some(userId)
  {
  }

  /** An entity {id: 1, name, url, user: {id: 1}} with no explicit id maps to {id: 1, name, url, userId: 1}. */
  lemma CreatedEntityExample(name: string, url: string, owner: User)
    requires owner.id == 1
    ensures ToResponseDto(Entities.SocialMedia(1, name, url, Some(owner)), None) == ResponseSocialMediaDto(1, name, url, Some(1))
  {
  }
}
