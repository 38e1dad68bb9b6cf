/** The response normaliser of `src/api/resources/core/get-all-user-invites.ts`: each invite
    received from the server is flattened into the record the invites screen renders. The HTTP
    request itself is not part of this model; the function starts from the received body. */
module UserInvites {
  import opened Wrappers

  datatype RankingRef = RankingRef(name: string)
  datatype AvatarRef = AvatarRef(url: string)
  datatype Inviter = Inviter(name: string, avatar: Option<AvatarRef>)

  /** `ApiInvite`: one invite as the server sends it. */
  datatype ApiInvite = ApiInvite(id: string, createdAt: string, ranking: RankingRef, invitedBy: Inviter)

  /** `GetAllUserInvitesResponse`. */
  datatype GetAllUserInvitesResponse = GetAllUserInvitesResponse(invites: seq<ApiInvite>, count: int)

  /** `UserInvite`: the flattened record. */
  datatype UserInvite = UserInvite(
    id: string,
    rankingName: string,
    createdAt: string,
    inviterName: string,
    inviterAvatarPath: Option<string>)

  /** `invite.invitedBy.avatar?.url || null`: the avatar URL when there is an avatar with a
      non-empty URL, otherwise `null`. */
  function AvatarPath(avatar: Option<AvatarRef>): (path: Option<string>)
    ensures path.Some? <==> avatar.Some? && avatar.value.url != ""
    ensures path.Some? ==> path.value != "" && avatar == Some(AvatarRef(path.value))
  {
    if avatar.Some? && avatar.value.url != "" then Some(avatar.value.url) else None
  }

  /** The record built for one invite: identifiers and timestamps copied, names lifted out of
      the nested objects, and the avatar path normalised. */
  function ToUserInvite(invite: ApiInvite): (u: UserInvite)
    ensures u.id == invite.id && u.createdAt == invite.createdAt
    ensures u.rankingName == invite.ranking.name && u.inviterName == invite.invitedBy.name
    ensures u.inviterAvatarPath.Some? ==> invite.invitedBy.avatar == Some(AvatarRef(u.inviterAvatarPath.value))
    ensures u.inviterAvatarPath.None? ==> invite.invitedBy.avatar.None? || invite.invitedBy.avatar.value.url == ""
  {
    UserInvite(invite.id, invite.ranking.name, invite.createdAt, invite.invitedBy.name,
               AvatarPath(invite.invitedBy.avatar))
  }

  /** `invites.map(...)`: one record per invite, in the same order. */
  function ToUserInvites(invites: seq<ApiInvite>): (r: seq<UserInvite>)
    ensures |r| == |invites|
    ensures forall i :: 0 <= i < |r| ==> r[i] == ToUserInvite(invites[i])
  {
    if invites == [] then [] else [ToUserInvite(invites[0])] + ToUserInvites(invites[1..])
  }

  /** The result of `getAllUserInvites` for a received response body. */
  function UserInvitesOf(response: GetAllUserInvitesResponse): (r: seq<UserInvite>)
    ensures |r| == |response.invites|
    ensures forall i :: 0 <= i < |r| ==> r[i].id == response.invites[i].id
  {
    ToUserInvites(response.invites)
  }

  /** The `count` field of the response plays no part in the result. */
  lemma CountIgnored(response: GetAllUserInvitesResponse, count: int)
    ensures UserInvitesOf(response.(count := count)) == UserInvitesOf(response)
  {
  }

  /** Normalising distributes over concatenation of the invite lists: order is preserved. */
  lemma ToUserInvitesConcat(a: seq<ApiInvite>, b: seq<ApiInvite>)
    ensures ToUserInvites(a + b) == ToUserInvites(a) + ToUserInvites(b)
  {
    var l, r := ToUserInvites(a + b), ToUserInvites(a) + ToUserInvites(b);
    assert |l| == |r|;
    forall i | 0 <= i < |l| ensures l[i] == r[i] {
      if i < |a| { assert (a + b)[i] == a[i]; } else { assert (a + b)[i] == b[i - |a|]; }
    }
  }
}
