/** The social media mapper of src/social-media/mappers/social-media.mapper.ts. */
module SocialMediaMapper {
  import opened Wrappers
  import opened Entities

  /**
   * Copies id, name and url and reads the owner's id from the loaded `user`
   * relation; without optional chaining, the relation must be loaded.
   */
  function ToResponseDto(socialMedia: SocialMedia): (r: ResponseSocialMediaDto)
    requires socialMedia.user.Some?
    ensures r.id == socialMedia.id && r.name == socialMedia.name && r.url == socialMedia.url
    ensures r.userId == socialMedia.user.value.id
  {
    ResponseSocialMediaDto(socialMedia.id, socialMedia.name, socialMedia.url, socialMedia.user.value.id)
  }

  /** Of the loaded owner only its id reaches the response. */
  lemma OnlyOwnerIdMatters(socialMedia: SocialMedia, owner: User)
    requires socialMedia.user.Some? && owner.id == socialMedia.user.value.id
    ensures ToResponseDto(socialMedia.(user := Some(owner))) == ToResponseDto(socialMedia)
  {
  }

  predicate AllUsersLoaded(socialMedias: seq<SocialMedia>) {
    forall i :: 0 <= i < |socialMedias| ==> socialMedias[i].user.Some?
  }

  /** `socialMedias.map(toResponseDto)`: same length, same order, element by element. */
  function ToResponseDtoArray(socialMedias: seq<SocialMedia>): (r: seq<ResponseSocialMediaDto>)
    requires AllUsersLoaded(socialMedias)
    ensures |r| == |socialMedias|
    ensures forall i :: 0 <= i < |r| ==> r[i] == ToResponseDto(socialMedias[i])
  {
    if socialMedias == [] then []
    else [ToResponseDto(socialMedias[0])] + ToResponseDtoArray(socialMedias[1..])
  }
}
