/** The identity service's composition logic (`auth.service.ts`): the detailed
    profile fold over four peer replies, the user listing, the pair lookup,
    the email lookup with follow counts, and the profile-photo update. */
module Auth {
  import opened Wrappers
  import opened Seqs
  import opened Users
  import opened Posts
  import opened UserDtos
  import opened FollowRequests
  import opened Relationships

  const UserNotFoundMessage: string := "User not found"
  const PairNotFoundMessage: string := "One or both users not found"
  const PhotoFailedMessage: string := "Failed to update profile photo"
  const PhotoRemovedMessage: string := "Profile photo removed successfully"
  const PhotoUpdatedMessage: string := "Profile photo updated successfully"

  /** The media service's reply to `GET_USER_POSTS`; `totalCount` is absent
      in its empty-result shape. */
  datatype PostsReply = PostsReply(totalCount: Option<int>, posts: seq<Post>)

  /** The seven values `getUserDetailsById` passes to `new UserDetailedDTO`. */
  datatype Composition = Composition(
    user: User,
    totalPosts: Option<int>,
    posts: seq<Post>,
    isFollowing: bool,
    isRequested: bool,
    followers: nat,
    following: nat)

  /** A settled peer result, or its default when the call was rejected. */
  function Settled<T>(p: Peer<T>, default: T): (v: T)
    ensures p.Fulfilled? ==> v == p.value
    ensures p.Rejected? ==> v == default
  {
    match p
    case Fulfilled(x) => x
    case Rejected => default
  }

  /** `user.isPrivate` in a condition: only a stored `true` is truthy. */
  predicate PrivateUser(u: User) {
    u.isPrivate == Some(true)
  }

  /** `getUserDetailsById(userId, viewer)`: the target must exist; each of the
      four replies falls back to its own default on failure; a private
      target's posts are hidden unless the viewer follows, and a public
      target always counts as followed. */
  function GetUserDetailsById(users: seq<User>, userId: Id,
                              postsReply: Peer<PostsReply>, followingReply: Peer<bool>,
                              requestedReply: Peer<Option<FollowRequest>>, countsReply: Peer<FollowCounts>)
    : (r: Result<Composition>)
    ensures r.Err? <==> FindUserById(users, userId).None?
    ensures r.Err? ==> r.error == BadRequest(UserNotFoundMessage)
    ensures r.Ok? ==> r.value.user == FindUserById(users, userId).value
    ensures r.Ok? ==> r.value.totalPosts == Settled(postsReply, PostsReply(Some(0), [])).totalCount
    ensures r.Ok? && PrivateUser(r.value.user) && followingReply != Fulfilled(true) ==> r.value.posts == []
    ensures r.Ok? && !(PrivateUser(r.value.user) && followingReply != Fulfilled(true)) ==>
      r.value.posts == Settled(postsReply, PostsReply(Some(0), [])).posts
    ensures r.Ok? && PrivateUser(r.value.user) ==> (r.value.isFollowing <==> followingReply == Fulfilled(true))
    ensures r.Ok? && !PrivateUser(r.value.user) ==> r.value.isFollowing
    ensures r.Ok? ==> (r.value.isRequested <==> requestedReply.Fulfilled? && requestedReply.value.Some?)
    ensures r.Ok? ==> r.value.followers == Settled(countsReply, FollowCounts(0, 0)).followers
    ensures r.Ok? ==> r.value.following == Settled(countsReply, FollowCounts(0, 0)).following
  {
    match FindUserById(users, userId)
    case None => Err(BadRequest(UserNotFoundMessage))
    case Some(user) =>
      var userPosts := Settled(postsReply, PostsReply(Some(0), []));
      var isFollowing := Settled(followingReply, false);
      var isRequested := Settled(requestedReply, None);
      var counts := Settled(countsReply, FollowCounts(0, 0));
      Ok(Composition(
        user,
        userPosts.totalCount,
        if PrivateUser(user) && !isFollowing then [] else userPosts.posts,
        if PrivateUser(user) then isFollowing else true,
        isRequested.Some?,
        counts.followers,
        counts.following))
  }

  /** No peer failure makes the operation fail: with every reply rejected an
      existing user still gets a profile, made of the defaults. */
  lemma AllPeersFailed(users: seq<User>, userId: Id)
    requires FindUserById(users, userId).Some?
    ensures var r := GetUserDetailsById(users, userId, Peer.Rejected, Peer.Rejected, Peer.Rejected, Peer.Rejected);
      r.Ok? && r.value.totalPosts == Some(0) && r.value.posts == [] && !r.value.isRequested
      && r.value.followers == 0 && r.value.following == 0
      && (r.value.isFollowing <==> !PrivateUser(r.value.user))
  {
  }

  /** The result's posts are always the media reply's posts or none at all,
      and a private target's posts reach only a follower. */
  lemma PostsOnlyFromMedia(users: seq<User>, userId: Id,
                           postsReply: Peer<PostsReply>, followingReply: Peer<bool>,
                           requestedReply: Peer<Option<FollowRequest>>, countsReply: Peer<FollowCounts>)
    requires GetUserDetailsById(users, userId, postsReply, followingReply, requestedReply, countsReply).Ok?
    ensures var c := GetUserDetailsById(users, userId, postsReply, followingReply, requestedReply, countsReply).value;
      (c.posts == [] || (postsReply.Fulfilled? && c.posts == postsReply.value.posts))
      && (PrivateUser(c.user) && c.posts != [] ==> c.isFollowing)
  {
  }

  /** The minimal views of a list of users, in order. */
  function Minimals(users: seq<User>): (r: seq<MinimalView>)
    ensures |r| == |users|
    ensures forall i :: 0 <= i < |users| ==> r[i] == MinimalOf(Some(users[i]))
  {
    seq(|users|, i requires 0 <= i < |users| => MinimalOf(Some(users[i])))
  }

  /** The `discardMe` filter: `res._id !== loggedInUser?.getId()`. Without a
      logged-in user the right side is `undefined` and nothing is removed. */
  predicate Kept(u: User, loggedIn: Option<Id>) {
    loggedIn.None? || u.id != loggedIn.value
  }

  /** `fetchUsers(undefined, loggedInUser, discardMe)` over the users the store
      returned. */
  function FetchUsers(found: seq<User>, loggedIn: Option<Id>, discardMe: bool): (r: seq<MinimalView>)
    ensures !discardMe ==> r == Minimals(found)
    ensures discardMe ==> r == Minimals(Filter(found, (u: User) => Kept(u, loggedIn)))
  {
    if discardMe then Minimals(Filter(found, (u: User) => Kept(u, loggedIn))) else Minimals(found)
  }

  /** With `discardMe` the listing holds exactly the views of the users whose
      id is not the logged-in user's. */
  lemma DiscardMeRemovesExactlyMe(found: seq<User>, me: Id)
    ensures forall v :: v in FetchUsers(found, Some(me), true) <==>
      exists u :: u in found && u.id != me && v == MinimalOf(Some(u))
  {
    var kept := Filter(found, (u: User) => Kept(u, Some(me)));
    var r := FetchUsers(found, Some(me), true);
    forall v | v in r ensures exists u :: u in found && u.id != me && v == MinimalOf(Some(u)) {
      var i :| 0 <= i < |r| && r[i] == v;
      assert kept[i] in kept;
    }
    forall v | exists u :: u in found && u.id != me && v == MinimalOf(Some(u)) ensures v in r {
      var u :| u in found && u.id != me && v == MinimalOf(Some(u));
      assert u in kept;
      var i :| 0 <= i < |kept| && kept[i] == u;
      assert r[i] == v;
    }
  }

  /** The listing keeps the store's order: it distributes over concatenation. */
  lemma {:induction false} FetchUsersKeepsOrder(a: seq<User>, b: seq<User>, loggedIn: Option<Id>, discardMe: bool)
    ensures FetchUsers(a + b, loggedIn, discardMe) == FetchUsers(a, loggedIn, discardMe) + FetchUsers(b, loggedIn, discardMe)
  {
    var p := (u: User) => Kept(u, loggedIn);
    FilterConcat(a, b, p);
    MinimalsConcat(a, b);
    MinimalsConcat(Filter(a, p), Filter(b, p));
  }

  lemma MinimalsConcat(a: seq<User>, b: seq<User>)
    ensures Minimals(a + b) == Minimals(a) + Minimals(b)
  {
    var l, r := Minimals(a + b), Minimals(a) + Minimals(b);
    forall i | 0 <= i < |l| ensures l[i] == r[i] {
      if i < |a| { assert (a + b)[i] == a[i]; } else { assert (a + b)[i] == b[i - |a|]; }
    }
  }

  /** `getMultipleUserMinimalDetailsById(userId1, userId2)`. */
  function GetMultipleUserMinimalDetailsById(users: seq<User>, userId1: Id, userId2: Id): (r: Result<seq<MinimalView>>)
    ensures r.Err? <==> FindUserById(users, userId1).None? || FindUserById(users, userId2).None?
    ensures r.Err? ==> r.error == BadRequest(PairNotFoundMessage)
    ensures r.Ok? ==> |r.value| == 2 && r.value[0].id == userId1 && r.value[1].id == userId2
    ensures r.Ok? ==>
      r.value[0] == MinimalOf(FindUserById(users, userId1)) && r.value[1] == MinimalOf(FindUserById(users, userId2))
  {
    var user1, user2 := FindUserById(users, userId1), FindUserById(users, userId2);
    if user1.None? || user2.None? then Err(BadRequest(PairNotFoundMessage))
    else Ok([MinimalOf(user1), MinimalOf(user2)])
  }

  /** The counts as the friendship service sends them; a field may be missing. */
  datatype CountsReply = CountsReply(followers: Option<int>, following: Option<int>)

  /** The user document with the two counts spread into it. */
  datatype UserWithCounts = UserWithCounts(user: User, followers: int, following: int)

  /** `x || 0` on a number that may be absent: 0 for absent and for 0. */
  function OrZero(x: Option<int>): (n: int)
    ensures x.Some? && x.value != 0 ==> n == x.value
    ensures x.None? || x.value == 0 ==> n == 0
  {
    if x.Some? && x.value != 0 then x.value else 0
  }

  /** `findByEmail(email)` with follow counts: no user is a "No user found"
      error; a failed count call is rethrown; missing counts become 0. The
      document is the store's full record, password included. */
  function FindByEmailWithCounts(users: seq<User>, email: string, countsReply: Peer<CountsReply>): (r: Result<UserWithCounts>)
    ensures FindByEmail(users, email).None? ==> r == Err(BadRequest("No user found with email :: " + email))
    ensures FindByEmail(users, email).Some? && countsReply.Rejected? ==> r == Err(Unavailable)
    ensures r.Ok? ==> FindByEmail(users, email).Some? && countsReply.Fulfilled?
    ensures r.Ok? ==> r.value.user == FindByEmail(users, email).value
    ensures r.Ok? ==>
      r.value.followers == OrZero(countsReply.value.followers) && r.value.following == OrZero(countsReply.value.following)
  {
    match FindByEmail(users, email)
    case None => Err(BadRequest("No user found with email :: " + email))
    case Some(user) =>
      match countsReply
      case Rejected => Err(Unavailable)
      case Fulfilled(counts) => Ok(UserWithCounts(user, OrZero(counts.followers), OrZero(counts.following)))
  }

  /** The reply of `updateProfilePhoto`. */
  datatype PhotoUpdate = PhotoUpdate(message: string, profilePhotoUrl: string)

  /** The stored value for a new photo URL: `null` for an empty one. */
  function StoredPhoto(url: string): (p: Option<string>)
    ensures p.None? <==> url == ""
    ensures p.Some? ==> p.value == url
  {
    if url == "" then None else Some(url)
  }

  /** A patch carrying only a photo changes only the photo. */
  lemma PhotoPatchSetsOnlyPhoto(photo: Option<string>)
    ensures forall u :: Patched(u, UserPatch(None, None, Some(photo), None)) == u.(profilePhoto := photo)
  {
  }

  class AuthService {
    const users: UserRepository

    constructor (users: UserRepository)
      ensures this.users == users
    {
      this.users := users;
    }

    /** `updateProfilePhoto(email, url)`: a missing user surfaces as the
        service's generic failure; otherwise the user's photo becomes
        `StoredPhoto(url)` and nothing else changes. */
    method UpdateProfilePhoto(email: string, profilePhotoUrl: string) returns (r: Result<PhotoUpdate>)
      requires users.Valid()
      modifies users
      ensures users.Valid()
      ensures r.Err? <==> FindByEmail(old(users.users), email).None?
      ensures r.Err? ==> r.error == InternalServerError(PhotoFailedMessage) && users.users == old(users.users)
      ensures r.Ok? ==> r.value.profilePhotoUrl == profilePhotoUrl
      ensures r.Ok? ==> r.value.message == if profilePhotoUrl == "" then PhotoRemovedMessage else PhotoUpdatedMessage
      ensures |users.users| == |old(users.users)|
      ensures forall i :: 0 <= i < |users.users| ==>
        users.users[i] == if old(users.users)[i].email == email
                          then old(users.users)[i].(profilePhoto := StoredPhoto(profilePhotoUrl))
                          else old(users.users)[i]
    {
      if FindByEmail(users.users, email).None? {
        return Err(InternalServerError(PhotoFailedMessage));
      }
      var patch := UserPatch(None, None, Some(StoredPhoto(profilePhotoUrl)), None);
      PhotoPatchSetsOnlyPhoto(StoredPhoto(profilePhotoUrl));
      var _ := users.UpdateUserByEmail(email, patch);
      var message := if profilePhotoUrl == "" then PhotoRemovedMessage else PhotoUpdatedMessage;
      r := Ok(PhotoUpdate(message, profilePhotoUrl));
    }
  }
}
