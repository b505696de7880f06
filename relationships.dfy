/** The social graph's edge collection (`relationship.repository.ts`) and the
    service over it (`relationship.service.ts`). */
module Relationships {
  import opened Wrappers
  import opened Seqs

  /** A directed edge: `followedBy` follows `followed`. */
  datatype Relationship = Relationship(followedBy: Id, followed: Id)

  datatype FollowCounts = FollowCounts(followers: nat, following: nat)

  /** `findOne({ followedBy, followed })`. Equal edges are equal values, so the
      result is the edge asked for. */
  function FindRelationship(edges: seq<Relationship>, followedBy: Id, followed: Id): (r: Option<Relationship>)
    ensures r.Some? ==> r.value == Relationship(followedBy, followed)
    ensures r.None? <==> Relationship(followedBy, followed) !in edges
  {
    First(edges, (e: Relationship) => e == Relationship(followedBy, followed))
  }

  /** `countDocuments({ followed: userId })`. */
  function Followers(edges: seq<Relationship>, userId: Id): nat {
    |Filter(edges, (e: Relationship) => e.followed == userId)|
  }

  /** `countDocuments({ followedBy: userId })`. */
  function Following(edges: seq<Relationship>, userId: Id): nat {
    |Filter(edges, (e: Relationship) => e.followedBy == userId)|
  }

  /** `getFollowersAndFollowingCount(userId)`. */
  function FollowersAndFollowingCount(edges: seq<Relationship>, userId: Id): (c: FollowCounts)
    ensures c.followers == Followers(edges, userId) && c.following == Following(edges, userId)
    ensures c.followers <= |edges| && c.following <= |edges|
  {
    FollowCounts(Followers(edges, userId), Following(edges, userId))
  }

  /** `findOneAndDelete`: drop the first occurrence of `e`, if any. */
  function RemoveFirst(edges: seq<Relationship>, e: Relationship): (r: seq<Relationship>)
    ensures e !in edges ==> r == edges
    ensures e in edges ==> exists i :: 0 <= i < |edges| && edges[i] == e && r == RemoveAt(edges, i)
    ensures e in edges ==> multiset(r) + multiset{e} == multiset(edges)
  {
    match FirstIndex(edges, (x: Relationship) => x == e)
    case None => edges
    case Some(i) => RemoveAt(edges, i)
  }

  /** Appending an edge adds one follower to its target and one followed
      account to its source, and changes no other count. */
  lemma {:induction false} AppendCounts(edges: seq<Relationship>, e: Relationship, u: Id)
    ensures Followers(edges + [e], u) == Followers(edges, u) + (if e.followed == u then 1 else 0)
    ensures Following(edges + [e], u) == Following(edges, u) + (if e.followedBy == u then 1 else 0)
  {
    var pFollowers := (x: Relationship) => x.followed == u;
    var pFollowing := (x: Relationship) => x.followedBy == u;
    FilterConcat(edges, [e], pFollowers);
    FilterConcat(edges, [e], pFollowing);
    assert [e][1..] == [];
  }

  /** Removing one edge takes one follower from its target and one followed
      account from its source, when the edge was present. */
  lemma RemoveFirstCounts(edges: seq<Relationship>, e: Relationship, u: Id)
    ensures Followers(RemoveFirst(edges, e), u) == Followers(edges, u) - (if e in edges && e.followed == u then 1 else 0)
    ensures Following(RemoveFirst(edges, e), u) == Following(edges, u) - (if e in edges && e.followedBy == u then 1 else 0)
  {
    if e in edges {
      var i :| 0 <= i < |edges| && edges[i] == e && RemoveFirst(edges, e) == RemoveAt(edges, i);
      FilterRemoveAt(edges, i, (x: Relationship) => x.followed == u);
      FilterRemoveAt(edges, i, (x: Relationship) => x.followedBy == u);
    }
  }

  /** Following and then unfollowing the same account restores every count. */
  lemma CreateThenRemoveRestoresCounts(edges: seq<Relationship>, e: Relationship, u: Id)
    ensures FollowersAndFollowingCount(RemoveFirst(edges + [e], e), u) == FollowersAndFollowingCount(edges, u)
  {
    AppendCounts(edges, e, u);
    assert e in edges + [e];
    RemoveFirstCounts(edges + [e], e, u);
  }

  /** With a duplicated edge, one removal leaves the other copy in place. */
  lemma RemoveKeepsDuplicate(edges: seq<Relationship>, e: Relationship)
    requires multiset(edges)[e] >= 2
    ensures e in RemoveFirst(edges, e)
  {
    var r := RemoveFirst(edges, e);
    assert e in multiset(edges);
    assert multiset(r)[e] >= 1;
  }

  /** Direction matters: an edge from `a` to `b` does not make `b` a follower
      of `a`. */
  lemma FollowingIsDirected(a: Id, b: Id)
    requires a != b
    ensures FindRelationship([Relationship(a, b)], a, b).Some?
    ensures FindRelationship([Relationship(a, b)], b, a).None?
  {
  }

  class RelationshipRepository {
    var edges: seq<Relationship>

    constructor ()
      ensures edges == []
    {
      edges := [];
    }

    /** `create({ followedBy, followed })`, with no check for an equal edge.
        `available` is whether the store accepted the write. */
    method CreateRelationship(followedBy: Id, followed: Id, available: bool) returns (r: Result<Relationship>)
      modifies this
      ensures available ==> r == Ok(Relationship(followedBy, followed)) && edges == old(edges) + [r.value]
      ensures !available ==> r == Err(Unavailable) && edges == old(edges)
    {
      if !available {
        return Err(Unavailable);
      }
      var e := Relationship(followedBy, followed);
      edges := edges + [e];
      r := Ok(e);
    }

    /** `findOneAndDelete({ followedBy, followed })`: the removed edge, or
        `None` when there was none. */
    method RemoveRelationship(followedBy: Id, followed: Id) returns (r: Option<Relationship>)
      modifies this
      ensures r.None? <==> Relationship(followedBy, followed) !in old(edges)
      ensures r.Some? ==> r.value == Relationship(followedBy, followed)
      ensures edges == RemoveFirst(old(edges), Relationship(followedBy, followed))
    {
      var e := Relationship(followedBy, followed);
      r := FindRelationship(edges, followedBy, followed);
      edges := RemoveFirst(edges, e);
    }
  }

  class RelationshipService {
    const repository: RelationshipRepository

    constructor (repository: RelationshipRepository)
      ensures this.repository == repository
    {
      this.repository := repository;
    }

    /** `createRelationship`: the inserted edge, or the store's error. */
    method CreateRelationship(followedBy: Id, followed: Id, available: bool) returns (r: Result<Relationship>)
      modifies repository
      ensures available ==> r == Ok(Relationship(followedBy, followed)) && repository.edges == old(repository.edges) + [r.value]
      ensures !available ==> r == Err(Unavailable) && repository.edges == old(repository.edges)
    {
      r := repository.CreateRelationship(followedBy, followed, available);
    }

    /** `unfollowUser`: `None` when no edge was removed, else the removed edge. */
    method UnfollowUser(followedBy: Id, followed: Id) returns (r: Option<Relationship>)
      modifies repository
      ensures r.None? <==> Relationship(followedBy, followed) !in old(repository.edges)
      ensures r.Some? ==> r.value == Relationship(followedBy, followed)
      ensures repository.edges == RemoveFirst(old(repository.edges), Relationship(followedBy, followed))
    {
      r := repository.RemoveRelationship(followedBy, followed);
    }

    /** `isFollowing(a, b)`: whether the edge from `a` to `b` exists. */
    function IsFollowing(followedBy: Id, followed: Id): (b: bool)
      reads repository
      ensures b <==> Relationship(followedBy, followed) in repository.edges
    {
      FindRelationship(repository.edges, followedBy, followed).Some?
    }

    /** `getUserFollowerFollowingCount`: the store's counts, unchanged. */
    function GetUserFollowerFollowingCount(userId: Id): (c: FollowCounts)
      reads repository
      ensures c.followers == Followers(repository.edges, userId)
      ensures c.following == Following(repository.edges, userId)
    {
      var counts := FollowersAndFollowingCount(repository.edges, userId);
      FollowCounts(counts.followers, counts.following)
    }
  }
}
