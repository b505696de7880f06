/** The media service's post collection (`image.repository.ts`). */
module Posts {
  import opened Wrappers
  import opened Seqs

  /** A stored post. `createdAt` is the store's timestamp. */
  datatype Post = Post(id: Id, userId: Id, imageUrl: string, caption: string, createdAt: nat)

  /** `{ posts, totalCount, nextPage }`; `nextPage` undefined is `None`. */
  datatype PostPage = PostPage(posts: seq<Post>, totalCount: nat, nextPage: Option<int>)

  function Min(a: int, b: int): int { if a <= b then a else b }
  function Abs(a: int): nat { if a < 0 then -a else a }

  /** Posts in strictly increasing creation time. */
  predicate Increasing(s: seq<Post>) {
    forall i, j :: 0 <= i < j < |s| ==> s[i].createdAt < s[j].createdAt
  }

  /** Posts newest first: strictly decreasing creation time. */
  predicate Decreasing(s: seq<Post>) {
    forall i, j :: 0 <= i < j < |s| ==> s[i].createdAt > s[j].createdAt
  }

  function Reverse(s: seq<Post>): (r: seq<Post>)
    ensures |r| == |s|
    ensures forall i :: 0 <= i < |s| ==> r[i] == s[|s| - 1 - i]
  {
    if |s| == 0 then [] else Reverse(s[1..]) + [s[0]]
  }

  /** `sort({ createdAt: -1 })` on a collection kept in creation order. */
  function NewestFirst(s: seq<Post>): (r: seq<Post>)
    requires Increasing(s)
    ensures Decreasing(r)
    ensures multiset(r) == multiset(s)
  {
    var r := Reverse(s);
    assert multiset(r) == multiset(s) by { ReverseMultiset(s); }
    r
  }

  lemma {:induction false} ReverseMultiset(s: seq<Post>)
    ensures multiset(Reverse(s)) == multiset(s)
  {
    if |s| > 0 {
      ReverseMultiset(s[1..]);
      assert s == [s[0]] + s[1..];
    }
  }

  /** Filtering keeps creation order. */
  lemma {:induction false} FilterIncreasing(s: seq<Post>, p: Post -> bool)
    requires Increasing(s)
    ensures Increasing(Filter(s, p))
  {
    if |s| > 0 {
      FilterIncreasing(s[1..], p);
      var rest := Filter(s[1..], p);
      forall x | x in rest ensures s[0].createdAt < x.createdAt {
        var j :| 0 <= j < |s[1..]| && s[1..][j] == x;
        assert s[j + 1] == x;
      }
    }
  }

  /** `skip = (page - 1) * pageSize`. */
  function Skip(page: int, pageSize: int): int {
    (page - 1) * pageSize
  }

  /** `.skip(skip).limit(limit)`: `limit(0)` means no limit and a negative
      limit returns at most its absolute value. */
  function Window(matching: seq<Post>, skip: nat, limit: int): (r: seq<Post>)
    ensures limit == 0 ==> |r| == |matching| - Min(skip, |matching|)
    ensures limit != 0 ==> |r| == Min(|matching| - Min(skip, |matching|), Abs(limit))
    ensures forall i :: 0 <= i < |r| ==> skip + i < |matching| && r[i] == matching[skip + i]
  {
    var rest := matching[Min(skip, |matching|)..];
    if limit == 0 then rest else rest[..Min(|rest|, Abs(limit))]
  }

  /** A window of a newest-first list is itself newest first, and every post
      in it comes from the list. */
  lemma WindowOfDecreasing(matching: seq<Post>, skip: nat, limit: int)
    requires Decreasing(matching)
    ensures Decreasing(Window(matching, skip, limit))
    ensures forall p :: p in Window(matching, skip, limit) ==> p in matching
  {
    var w := Window(matching, skip, limit);
    forall i, j | 0 <= i < j < |w| ensures w[i].createdAt > w[j].createdAt {
      assert w[i] == matching[skip + i] && w[j] == matching[skip + j];
    }
    forall p | p in w ensures p in matching {
      var i :| 0 <= i < |w| && w[i] == p;
      assert matching[skip + i] == p;
    }
  }

  /** The page: the window at `skip`, the count of all matching posts, and
      `nextPage = skip + pageSize < total ? page + 1 : undefined`. Mongo
      rejects a negative skip. */
  function Paginate(matching: seq<Post>, page: int, pageSize: int): (r: Result<PostPage>)
    ensures r.Err? <==> Skip(page, pageSize) < 0
    ensures r.Ok? ==> r.value.posts == Window(matching, Skip(page, pageSize), pageSize)
    ensures r.Ok? ==> r.value.totalCount == |matching|
    ensures r.Ok? ==> (r.value.nextPage.Some? <==> Skip(page, pageSize) + pageSize < |matching|)
    ensures r.Ok? && r.value.nextPage.Some? ==> r.value.nextPage.value == page + 1
  {
    var skip := Skip(page, pageSize);
    if skip < 0 then Err(Failure("skip must be non-negative"))
    else
      var nextPage := if skip + pageSize < |matching| then Some(page + 1) else None;
      Ok(PostPage(Window(matching, skip, pageSize), |matching|, nextPage))
  }

  /** With a positive page size a page holds at most `pageSize` posts, and the
      next page is offered exactly when a post lies beyond this one. */
  lemma PageBounds(matching: seq<Post>, page: int, pageSize: int)
    requires pageSize > 0
    requires Paginate(matching, page, pageSize).Ok?
    ensures |Paginate(matching, page, pageSize).value.posts| <= pageSize
    ensures Paginate(matching, page, pageSize).value.nextPage.Some? <==>
      Skip(page, pageSize) + |Paginate(matching, page, pageSize).value.posts| < |matching|
  {
  }

  /** With a positive page size every post of the list is on exactly the
      page its position says: post `i` is item `i % pageSize` of page
      `i / pageSize + 1`. */
  lemma EveryPostOnItsPage(matching: seq<Post>, pageSize: int, i: nat)
    requires pageSize > 0 && i < |matching|
    ensures Paginate(matching, i / pageSize + 1, pageSize).Ok?
    ensures i % pageSize < |Paginate(matching, i / pageSize + 1, pageSize).value.posts|
    ensures Paginate(matching, i / pageSize + 1, pageSize).value.posts[i % pageSize] == matching[i]
  {
    var page := i / pageSize + 1;
    assert Skip(page, pageSize) == (i / pageSize) * pageSize;
    assert (i / pageSize) * pageSize + i % pageSize == i;
    assert 0 <= i % pageSize < pageSize;
  }

  /** The posts of one user, in store order. */
  function PostsOf(posts: seq<Post>, userId: Id): (r: seq<Post>)
    ensures forall p :: p in r <==> p in posts && p.userId == userId
    ensures Increasing(posts) ==> Increasing(r)
  {
    if Increasing(posts) then FilterIncreasing(posts, (p: Post) => p.userId == userId); Filter(posts, (p: Post) => p.userId == userId)
    else Filter(posts, (p: Post) => p.userId == userId)
  }

  /** The posts whose owner is in `userIds`, in store order. */
  function PostsOfAny(posts: seq<Post>, userIds: seq<Id>): (r: seq<Post>)
    ensures forall p :: p in r <==> p in posts && p.userId in userIds
    ensures Increasing(posts) ==> Increasing(r)
  {
    if Increasing(posts) then FilterIncreasing(posts, (p: Post) => p.userId in userIds); Filter(posts, (p: Post) => p.userId in userIds)
    else Filter(posts, (p: Post) => p.userId in userIds)
  }

  /** `findPostsByUser(userId, page, pageSize)`. */
  function FindPostsByUser(posts: seq<Post>, userId: Id, page: int, pageSize: int): (r: Result<PostPage>)
    requires Increasing(posts)
    ensures r == Paginate(NewestFirst(PostsOf(posts, userId)), page, pageSize)
    ensures r.Err? <==> Skip(page, pageSize) < 0
    ensures r.Ok? ==> forall p :: p in r.value.posts ==> p in posts && p.userId == userId
    ensures r.Ok? ==> Decreasing(r.value.posts)
    ensures r.Ok? ==> r.value.totalCount == |PostsOf(posts, userId)|
  {
    var r := Paginate(NewestFirst(PostsOf(posts, userId)), page, pageSize);
    if Skip(page, pageSize) >= 0 then
      WindowOfDecreasing(NewestFirst(PostsOf(posts, userId)), Skip(page, pageSize), pageSize);
      r
    else r
  }

  /** `findPostsByUsers(userIds, page, pageSize)`. */
  function FindPostsByUsers(posts: seq<Post>, userIds: seq<Id>, page: int, pageSize: int): (r: Result<PostPage>)
    requires Increasing(posts)
    ensures r == Paginate(NewestFirst(PostsOfAny(posts, userIds)), page, pageSize)
    ensures r.Err? <==> Skip(page, pageSize) < 0
    ensures r.Ok? ==> forall p :: p in r.value.posts ==> p in posts && p.userId in userIds
    ensures r.Ok? ==> Decreasing(r.value.posts)
    ensures r.Ok? ==> r.value.totalCount == |PostsOfAny(posts, userIds)|
  {
    var r := Paginate(NewestFirst(PostsOfAny(posts, userIds)), page, pageSize);
    if Skip(page, pageSize) >= 0 then
      WindowOfDecreasing(NewestFirst(PostsOfAny(posts, userIds)), Skip(page, pageSize), pageSize);
      r
    else r
  }

  predicate PostIdsUnique(posts: seq<Post>) {
    forall i, j :: 0 <= i < j < |posts| ==> posts[i].id != posts[j].id
  }

  /** Deleting one post keeps the store ordered with unique ids. */
  lemma RemoveAtKeepsOrder(s: seq<Post>, i: nat)
    requires i < |s|
    requires Increasing(s) && PostIdsUnique(s)
    ensures Increasing(RemoveAt(s, i)) && PostIdsUnique(RemoveAt(s, i))
  {
    var r := RemoveAt(s, i);
    forall j, k | 0 <= j < k < |r| ensures r[j].createdAt < r[k].createdAt && r[j].id != r[k].id {
      var j', k' := if j < i then j else j + 1, if k < i then k else k + 1;
      assert r[j] == s[j'] && r[k] == s[k'] && j' < k';
    }
  }

  /** With unique ids, deleting the post at `i` removes exactly the post with
      its id. */
  lemma RemoveAtRemovesId(s: seq<Post>, i: nat)
    requires i < |s|
    requires PostIdsUnique(s)
    ensures forall p :: p in RemoveAt(s, i) <==> p in s && p.id != s[i].id
  {
    var r := RemoveAt(s, i);
    forall p | p in r ensures p in s && p.id != s[i].id {
      var j :| 0 <= j < |r| && r[j] == p;
      if j < i { assert p == s[j]; } else { assert p == s[j + 1]; }
    }
    forall p | p in s && p.id != s[i].id ensures p in r {
      var j :| 0 <= j < |s| && s[j] == p;
      if j < i { assert r[j] == p; } else { assert j != i; assert r[j - 1] == p; }
    }
  }

  class PostRepository {
    var posts: seq<Post>
    /** The store's clock: every stored post is older than it. */
    var clock: nat

    ghost predicate Valid()
      reads this
    {
      Increasing(posts) && PostIdsUnique(posts) &&
      forall i :: 0 <= i < |posts| ==> posts[i].createdAt < clock
    }

    constructor ()
      ensures Valid() && posts == []
    {
      posts := [];
      clock := 0;
    }

    /** `create({ userId, imageUrl, caption: caption || '' })`; `newId` is the
        id the store assigns, and a taken id is a duplicate-key error. */
    method CreatePost(userId: Id, imageUrl: string, caption: Option<string>, newId: Id) returns (r: Result<Post>)
      requires Valid()
      modifies this
      ensures Valid()
      ensures r.Err? <==> exists p :: p in old(posts) && p.id == newId
      ensures r.Err? ==> posts == old(posts)
      ensures r.Ok? ==> posts == old(posts) + [r.value]
      ensures r.Ok? ==> r.value.id == newId && r.value.userId == userId && r.value.imageUrl == imageUrl
      ensures r.Ok? ==> r.value.caption == caption.GetOr("")
      ensures r.Ok? ==> forall p :: p in old(posts) ==> p.createdAt < r.value.createdAt
    {
      if FirstIndex(posts, (p: Post) => p.id == newId).Some? {
        return Err(DuplicateKey("_id"));
      }
      var post := Post(newId, userId, imageUrl, if caption.Some? && caption.value != "" then caption.value else "", clock);
      posts := posts + [post];
      clock := clock + 1;
      r := Ok(post);
    }

    /** `deleteOne({ _id: postId })`; `deleted` is the deleted count. */
    method DeletePostById(postId: Id) returns (deleted: nat)
      requires Valid()
      modifies this
      ensures Valid()
      ensures deleted == 0 <==> forall p :: p in old(posts) ==> p.id != postId
      ensures deleted == 0 ==> posts == old(posts)
      ensures deleted == 1 ==> exists i :: 0 <= i < |old(posts)| && old(posts)[i].id == postId && posts == RemoveAt(old(posts), i)
      ensures deleted <= 1
      ensures forall p :: p in posts <==> p in old(posts) && p.id != postId
    {
      var k := FirstIndex(posts, (p: Post) => p.id == postId);
      if k.None? {
        return 0;
      }
      var i := k.value;
      RemoveAtKeepsOrder(posts, i);
      RemoveAtRemovesId(posts, i);
      posts := RemoveAt(posts, i);
      deleted := 1;
    }
  }
}
