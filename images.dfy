/** The media service (`image.service.ts`): argument checks, the order of the
    database and blob-storage effects, and the shape of the "my posts" reply.
    The blob store is a ghost log of the calls made to it; whether each call
    succeeded is a parameter. */
module Images {
  import opened Wrappers
  import opened Posts
  import opened PublicIds

  /** An outside effect: a blob-store upload or destroy, or the event sent to
      the account service after a profile photo was destroyed. */
  datatype Effect =
    | Upload(folder: string, publicId: string)
    | Destroy(publicId: string)
    | RemoveProfilePhotoSent(email: string)

  const NoFileMessage := "No file uploaded"
  const MissingUserIdMessage := "User Id is required for uploading a post"
  const MissingImageUrlMessage := "Image URL is required"
  const DestroyFailedMessage := "Failed to delete image from Cloudinary"
  const DeletePostFailedMessage := "Failed to delete post"
  const PostDeletedMessage := "Post deleted successfully"
  const PostsFolder := "posts"

  /** `getMyPosts`: `{ posts: [], nextPage: null }` when the page is empty,
      else the repository's page as it came. */
  datatype MyPosts = NoPosts | Page(page: PostPage)

  function GetMyPosts(posts: seq<Post>, userId: Id, page: int, pageSize: int): (r: Result<MyPosts>)
    requires Increasing(posts)
    ensures r.Err? <==> Skip(page, pageSize) < 0
    ensures r.Ok? && r.value.NoPosts? ==> FindPostsByUser(posts, userId, page, pageSize).value.posts == []
    ensures r.Ok? && r.value.Page? ==> r.value.page == FindPostsByUser(posts, userId, page, pageSize).value && r.value.page.posts != []
  {
    match FindPostsByUser(posts, userId, page, pageSize)
    case Err(e) => Err(e)
    case Ok(p) => if |p.posts| == 0 then Ok(NoPosts) else Ok(Page(p))
  }

  /** With a positive page size and a page that is not before the first, the
      empty reply comes exactly when the page starts past the user's last
      post. */
  lemma NoPostsIffPastTheEnd(posts: seq<Post>, userId: Id, page: int, pageSize: int)
    requires Increasing(posts)
    requires pageSize > 0 && page >= 1
    ensures GetMyPosts(posts, userId, page, pageSize).Ok?
    ensures GetMyPosts(posts, userId, page, pageSize).value.NoPosts? <==> Skip(page, pageSize) >= |PostsOf(posts, userId)|
  {
    assert Skip(page, pageSize) >= 0 by {
      assert (page - 1) * pageSize >= 0;
    }
    FilterIncreasing(posts, (p: Post) => p.userId == userId);
    var matching := NewestFirst(PostsOf(posts, userId));
    assert |matching| == |PostsOf(posts, userId)| by {
      assert |multiset(matching)| == |multiset(PostsOf(posts, userId))|;
    }
  }

  /** A user without posts always gets the empty reply. */
  lemma NoPostsForUserWithoutPosts(posts: seq<Post>, userId: Id, page: int, pageSize: int)
    requires Increasing(posts)
    requires forall p :: p in posts ==> p.userId != userId
    requires Skip(page, pageSize) >= 0
    ensures GetMyPosts(posts, userId, page, pageSize) == Ok(NoPosts)
  {
  }

  class ImageService {
    const repository: PostRepository
    /** The outside calls made so far, oldest first. */
    ghost var effects: seq<Effect>

    constructor (repository: PostRepository)
      ensures this.repository == repository && effects == []
    {
      this.repository := repository;
      effects := [];
    }

    /** `uploadPost(file, userId, caption)`. The file and user id are checked
        first; then the image goes to the `posts` folder under
        `userId + '_' + randomId`, and only after the upload succeeded is the
        post stored. `uploaded` is the secure URL the blob store returns, or
        `None` when it failed; `newPostId` is the id the database assigns. */
    method UploadPost(hasFile: bool, userId: Id, caption: Option<string>, randomId: string,
                      uploaded: Option<string>, newPostId: Id) returns (r: Result<string>)
      requires repository.Valid()
      modifies this, repository
      ensures repository.Valid()
      ensures !hasFile ==> r == Err(BadRequest(NoFileMessage))
      ensures hasFile && userId == "" ==> r == Err(BadRequest(MissingUserIdMessage))
      ensures !hasFile || userId == "" ==> effects == old(effects) && repository.posts == old(repository.posts)
      ensures hasFile && userId != "" ==> effects == old(effects) + [Upload(PostsFolder, userId + "_" + randomId)]
      ensures hasFile && userId != "" && uploaded.None? ==> r == Err(Unavailable) && repository.posts == old(repository.posts)
      ensures (hasFile && userId != "" && uploaded.Some? ==>
        (r.Ok? <==> forall p :: p in old(repository.posts) ==> p.id != newPostId))
      ensures r.Err? ==> repository.posts == old(repository.posts)
      ensures (r.Ok? ==>
        hasFile && userId != "" && uploaded.Some? && r.value == uploaded.value &&
        |repository.posts| == |old(repository.posts)| + 1 &&
        repository.posts[..|old(repository.posts)|] == old(repository.posts) &&
        repository.posts[|old(repository.posts)|] == Post(newPostId, userId, uploaded.value, caption.GetOr(""), repository.posts[|old(repository.posts)|].createdAt))
    {
      if !hasFile {
        return Err(BadRequest(NoFileMessage));
      }
      if userId == "" {
        return Err(BadRequest(MissingUserIdMessage));
      }
      effects := effects + [Upload(PostsFolder, userId + "_" + randomId)];
      if uploaded.None? {
        return Err(Unavailable);
      }
      var created := repository.CreatePost(userId, uploaded.value, caption, newPostId);
      if created.Err? {
        return Err(created.error);
      }
      r := Ok(uploaded.value);
    }

    /** `removeProfilePhoto(imageUrl, email)`. An empty URL is refused before
        anything else; otherwise the blob is destroyed under the id derived
        from the URL, then the account service is told, and any failure of
        either becomes one `BadRequest`. */
    method RemoveProfilePhoto(imageUrl: string, email: string, destroyed: bool, reply: Peer<string>) returns (r: Result<string>)
      modifies this
      ensures imageUrl == "" ==> r == Err(BadRequest(MissingImageUrlMessage)) && effects == old(effects)
      ensures (imageUrl != "" ==>
        effects == old(effects) + [Destroy(UrlPublicId(imageUrl))] + (if destroyed then [RemoveProfilePhotoSent(email)] else []))
      ensures imageUrl != "" ==> (r.Ok? <==> destroyed && reply.Fulfilled?)
      ensures imageUrl != "" && r.Err? ==> r == Err(BadRequest(DestroyFailedMessage))
      ensures r.Ok? ==> reply.Fulfilled? && r.value == reply.value
    {
      if imageUrl == "" {
        return Err(BadRequest(MissingImageUrlMessage));
      }
      var publicId := UrlPublicId(imageUrl);
      effects := effects + [Destroy(publicId)];
      if !destroyed {
        return Err(BadRequest(DestroyFailedMessage));
      }
      effects := effects + [RemoveProfilePhotoSent(email)];
      match reply
      case Rejected => r := Err(BadRequest(DestroyFailedMessage));
      case Fulfilled(response) => r := Ok(response);
    }

    /** `deletePost(postId, imageUrl)`. A missing id fails before the store is
        touched; otherwise the database record goes first, and only then is
        the blob id derived from the URL (a missing URL fails there) and the
        blob destroyed. Every failure is rethrown as one `Error`. */
    method DeletePost(postId: Id, imageUrl: Option<string>, destroyed: bool) returns (r: Result<string>)
      requires repository.Valid()
      modifies this, repository
      ensures repository.Valid()
      ensures postId == "" ==> r == Err(Failure(DeletePostFailedMessage)) && effects == old(effects) && repository.posts == old(repository.posts)
      ensures (postId != "" ==>
        forall p :: p in repository.posts <==> p in old(repository.posts) && p.id != postId)
      ensures postId != "" && imageUrl.None? ==> r == Err(Failure(DeletePostFailedMessage)) && effects == old(effects)
      ensures postId != "" && imageUrl.Some? ==> effects == old(effects) + [Destroy(UrlPublicId(imageUrl.value))]
      ensures r.Ok? <==> postId != "" && imageUrl.Some? && destroyed
      ensures r.Ok? ==> r.value == PostDeletedMessage
      ensures r.Err? ==> r == Err(Failure(DeletePostFailedMessage))
    {
      if postId == "" {
        return Err(Failure(DeletePostFailedMessage));
      }
      var _ := repository.DeletePostById(postId);
      if imageUrl.None? {
        return Err(Failure(DeletePostFailedMessage));
      }
      effects := effects + [Destroy(UrlPublicId(imageUrl.value))];
      if !destroyed {
        return Err(Failure(DeletePostFailedMessage));
      }
      r := Ok(PostDeletedMessage);
    }
  }
}
