/** The identity service's response objects (`user-minimal.dto.ts`,
    `user-deatiled.dto.ts`). */
module UserDtos {
  import opened Wrappers
  import opened Users
  import opened Posts

  /** The five fields of a `UserMinimalDTO`. */
  datatype MinimalView = MinimalView(id: Id, firstName: string, lastName: string, profilePhoto: string, isPrivate: bool)

  /** The fields of a `UserDetailedDTO`: the minimal ones, `totalPosts`, and
      `posts`, which is `None` while the field has never been assigned. */
  datatype DetailedView = DetailedView(minimal: MinimalView, totalPosts: int, posts: Option<seq<Post>>)

  /** `new UserMinimalDTO(user?)`: each field is `user?.field ?? default`,
      with `''` for the strings and `true` for `isPrivate`. */
  function MinimalOf(user: Option<User>): (v: MinimalView)
    ensures user.None? ==> v == MinimalView("", "", "", "", true)
    ensures user.Some? ==> v.id == user.value.id && v.firstName == user.value.firstName && v.lastName == user.value.lastName
    ensures user.Some? && user.value.profilePhoto.Some? ==> v.profilePhoto == user.value.profilePhoto.value
    ensures user.Some? && user.value.profilePhoto.None? ==> v.profilePhoto == ""
    ensures !v.isPrivate <==> user.Some? && user.value.isPrivate == Some(false)
  {
    match user
    case None => MinimalView("", "", "", "", true)
    case Some(u) => MinimalView(u.id, u.firstName, u.lastName, u.profilePhoto.GetOr(""), u.isPrivate.GetOr(true))
  }

  /** `??` only replaces absent values: an empty name or photo and an explicit
      `isPrivate: false` come through unchanged. */
  lemma MinimalKeepsFalsyValues(u: User)
    requires u.firstName == "" && u.profilePhoto == Some("") && u.isPrivate == Some(false)
    ensures MinimalOf(Some(u)).firstName == ""
    ensures MinimalOf(Some(u)).profilePhoto == ""
    ensures MinimalOf(Some(u)).isPrivate == false
  {
  }

  /** `new UserDetailedDTO(user, totalPosts?, posts?)`: the minimal fields of
      `user`, `totalPosts ?? 0`, and `posts ?? []` assigned only when
      `!user.isPrivate`, that is when `isPrivate` is absent or false. */
  function DetailedOf(user: User, totalPosts: Option<int>, posts: Option<seq<Post>>): (d: DetailedView)
    ensures d.minimal == MinimalOf(Some(user))
    ensures d.totalPosts == (if totalPosts.Some? then totalPosts.value else 0)
    ensures d.posts.None? <==> user.isPrivate == Some(true)
    ensures d.posts.Some? ==> d.posts.value == (if posts.Some? then posts.value else [])
  {
    DetailedView(MinimalOf(Some(user)), totalPosts.GetOr(0),
                 if user.isPrivate == Some(true) then None else Some(posts.GetOr([])))
  }

  /** A user with no stored privacy setting reads as private in the minimal
      fields, yet the detailed constructor still assigns the posts. */
  lemma AbsentPrivacyReadsPrivateButShowsPosts(user: User, totalPosts: Option<int>, posts: Option<seq<Post>>)
    requires user.isPrivate.None?
    ensures DetailedOf(user, totalPosts, posts).minimal.isPrivate
    ensures DetailedOf(user, totalPosts, posts).posts.Some?
  {
  }

  /** Posts are withheld only from a user whose minimal fields say private. */
  lemma WithheldPostsMeansPrivate(user: User, totalPosts: Option<int>, posts: Option<seq<Post>>)
    ensures DetailedOf(user, totalPosts, posts).posts.None? ==> DetailedOf(user, totalPosts, posts).minimal.isPrivate
  {
  }

  class UserMinimalDTO {
    var id: Id
    var firstName: string
    var lastName: string
    var profilePhoto: string
    var isPrivate: bool

    function View(): MinimalView
      reads this
    {
      MinimalView(id, firstName, lastName, profilePhoto, isPrivate)
    }

    constructor (user: Option<User>)
      ensures View() == MinimalOf(user)
    {
      var v := MinimalOf(user);
      id, firstName, lastName, profilePhoto, isPrivate := v.id, v.firstName, v.lastName, v.profilePhoto, v.isPrivate;
    }

    function GetId(): Id reads this { id }
    function GetFirstName(): string reads this { firstName }
    function GetLastName(): string reads this { lastName }
    function GetProfilePhoto(): string reads this { profilePhoto }
    function IsIsPrivate(): bool reads this { isPrivate }

    method SetId(id: Id)
      modifies this
      ensures GetId() == id && View() == old(View()).(id := id)
    {
      this.id := id;
    }

    method SetFirstName(firstName: string)
      modifies this
      ensures GetFirstName() == firstName && View() == old(View()).(firstName := firstName)
    {
      this.firstName := firstName;
    }

    method SetLastName(lastName: string)
      modifies this
      ensures GetLastName() == lastName && View() == old(View()).(lastName := lastName)
    {
      this.lastName := lastName;
    }

    method SetProfilePhoto(profilePhoto: string)
      modifies this
      ensures GetProfilePhoto() == profilePhoto && View() == old(View()).(profilePhoto := profilePhoto)
    {
      this.profilePhoto := profilePhoto;
    }

    method SetIsPrivate(isPrivate: bool)
      modifies this
      ensures IsIsPrivate() == isPrivate && View() == old(View()).(isPrivate := isPrivate)
    {
      this.isPrivate := isPrivate;
    }
  }

  /** `UserDetailedDTO extends UserMinimalDTO`: the inherited part is held as
      the object `minimal`. */
  class UserDetailedDTO {
    const minimal: UserMinimalDTO
    var totalPosts: int
    var posts: Option<seq<Post>>

    function View(): DetailedView
      reads this, minimal
    {
      DetailedView(minimal.View(), totalPosts, posts)
    }

    constructor (user: User, totalPosts: Option<int>, posts: Option<seq<Post>>)
      ensures View() == DetailedOf(user, totalPosts, posts)
      ensures fresh(minimal)
    {
      minimal := new UserMinimalDTO(Some(user));
      this.totalPosts := totalPosts.GetOr(0);
      this.posts := if user.isPrivate == Some(true) then None else Some(posts.GetOr([]));
    }

    function GetTotalPosts(): int reads this { totalPosts }
    function GetPosts(): Option<seq<Post>> reads this { posts }

    method SetTotalPosts(totalPosts: int)
      modifies this
      ensures GetTotalPosts() == totalPosts && View() == old(View()).(totalPosts := totalPosts)
    {
      this.totalPosts := totalPosts;
    }

    method SetPosts(posts: seq<Post>)
      modifies this
      ensures GetPosts() == Some(posts) && View() == old(View()).(posts := Some(posts))
    {
      this.posts := Some(posts);
    }
  }
}
