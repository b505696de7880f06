/** The follow-request orchestrator (`follow-request.service.ts`) and the
    notification it pushes (`follow-request.gateway.ts`). */
module FollowRequestOrchestrator {
  import opened Wrappers
  import opened Seqs
  import opened TokenGenerator
  import opened FollowRequests
  import opened Relationships
  import opened UserDtos

  /** The `newFollowRequest` event: the user and their pending requests. */
  datatype Notification = Notification(userId: Id, requests: seq<FollowRequest>)

  /** `generateRandomAlphanumericString(10)`. */
  const TokenLength: nat := 10

  const SelfFollowMessage: string := "You cannot follow yourself"
  const AlreadySentMessage: string := "You\U{2019}ve already sent a follow request!"
  const MissingArgumentsMessage: string := "Invite token and status are required"
  const DetailsNotFoundMessage: string := "Follow request details not found"
  const InvalidTokenMessage: string := "Invalid or expired invite token"

  /** `new UserInfoDTO(user.id, user.firstName, ...)`. */
  function Snapshot(v: MinimalView): UserInfo {
    UserInfo(v.id, v.firstName, v.lastName, v.profilePhoto, v.isPrivate)
  }

  /** The `CreateFollowRequestDTO` built from the two identities. */
  function NewRequest(requestBy: MinimalView, requestTo: MinimalView, randomBytes: seq<byte>): (r: FollowRequest)
    requires |randomBytes| == TokenLength
    ensures r.status == Pending && !r.isExpired
    ensures |r.requestToken| == TokenLength
    ensures forall c :: c in r.requestToken ==> Alphanumeric(c)
    ensures r.requestBy.id == requestBy.id && r.requestBy.firstName == requestBy.firstName
      && r.requestBy.lastName == requestBy.lastName && r.requestBy.profilePhoto == requestBy.profilePhoto
      && r.requestBy.isPrivate == requestBy.isPrivate
    ensures r.requestTo.id == requestTo.id && r.requestTo.firstName == requestTo.firstName
      && r.requestTo.lastName == requestTo.lastName && r.requestTo.profilePhoto == requestTo.profilePhoto
      && r.requestTo.isPrivate == requestTo.isPrivate
  {
    AlphabetIsAlphanumeric();
    FollowRequest(Snapshot(requestBy), Snapshot(requestTo), GenerateToken(randomBytes), Pending, false)
  }

  /** A duplicate-request lookup against the store. */
  type Lookup = (seq<FollowRequest>, Id, Id) -> Option<FollowRequest>

  /** The lookup `createFollowRequest` performs: `findActiveFollowRequest`. */
  function ActiveLookup(records: seq<FollowRequest>, requestBy: Id, requestTo: Id): (r: Option<FollowRequest>)
    ensures r.None?
  {
    ActiveLookupNeverMatches(records, requestBy, requestTo);
    FindActiveFollowRequest(records, requestBy, requestTo)
  }

  /** The lookup the duplicate check evidently intends: an open pending
      request between the same two users, by id. */
  function PendingLookup(records: seq<FollowRequest>, requestBy: Id, requestTo: Id): (r: Option<FollowRequest>)
    ensures r.None? <==> forall x :: x in records ==> !PendingBetween(x, requestBy, requestTo)
  {
    FindPendingFollowRequestBetweenTwo(records, requestBy, requestTo)
  }

  /** At most one open pending request per ordered pair of users. */
  predicate OnePendingPerPair(records: seq<FollowRequest>) {
    forall i, j :: 0 <= i < j < |records| && !records[i].isExpired && records[i].status == Pending ==>
      !PendingBetween(records[j], records[i].requestBy.id, records[i].requestTo.id)
  }

  /** The store as written can hold two open requests for one pair: the
      literal lookup misses a pending request from `a` to `b`, while the by-id
      lookup finds it, and inserting a second one breaks the invariant. */
  lemma DuplicateRequestNotDetected(a: MinimalView, b: MinimalView, bytes1: seq<byte>, bytes2: seq<byte>)
    requires |bytes1| == TokenLength && |bytes2| == TokenLength
    ensures ActiveLookup([NewRequest(a, b, bytes1)], a.id, b.id).None?
    ensures PendingLookup([NewRequest(a, b, bytes1)], a.id, b.id).Some?
    ensures !OnePendingPerPair([NewRequest(a, b, bytes1), NewRequest(a, b, bytes2)])
  {
    var first, second := NewRequest(a, b, bytes1), NewRequest(a, b, bytes2);
    var s := [first, second];
    assert PendingBetween(first, a.id, b.id);
    assert s[0] == first && s[1] == second;
    assert PendingBetween(s[1], s[0].requestBy.id, s[0].requestTo.id);
  }

  /** Inserting a new pending request found by neither party's pending
      request keeps one pending request per pair. */
  lemma AppendKeepsOnePending(records: seq<FollowRequest>, r: FollowRequest)
    requires OnePendingPerPair(records)
    requires forall x :: x in records ==> !PendingBetween(x, r.requestBy.id, r.requestTo.id)
    ensures OnePendingPerPair(records + [r])
  {
    var s := records + [r];
    forall i, j | 0 <= i < j < |s| && !s[i].isExpired && s[i].status == Pending
      ensures !PendingBetween(s[j], s[i].requestBy.id, s[i].requestTo.id)
    {
      if j == |records| {
        assert s[i] == records[i] && s[i] in records;
      } else {
        assert s[i] == records[i] && s[j] == records[j];
      }
    }
  }

  class FollowRequestService {
    const requests: FollowRequestRepository
    const relationships: RelationshipService
    /** The `newFollowRequest` events emitted so far. */
    ghost var notifications: seq<Notification>

    /** The token index and the lifecycle invariant. */
    ghost predicate Valid()
      reads this, requests
    {
      requests.Valid() && ExpiryConsistent(requests.records)
    }

    constructor (requests: FollowRequestRepository, relationships: RelationshipService)
      requires requests.Valid() && ExpiryConsistent(requests.records)
      ensures Valid() && notifications == []
      ensures this.requests == requests && this.relationships == relationships
    {
      this.requests := requests;
      this.relationships := relationships;
      notifications := [];
    }

    /** `notifyNewFollowRequest(userId)`: emit the user's pending requests. */
    method NotifyNewFollowRequest(userId: Id)
      modifies this
      ensures notifications == old(notifications) + [Notification(userId, FindPendingFollowRequests(requests.records, userId))]
    {
      notifications := notifications + [Notification(userId, GetPendingFollowRequests(userId))];
    }

    /** The steps of `createFollowRequest` with the duplicate lookup given:
        the self check, the lookup, the identities (`None` when the identity
        call fails, after which the snapshot reads a field of `undefined`),
        the insert, then the notification. */
    method CreateWithLookup(lookup: Lookup, requestBy: Id, requestTo: Id,
                            identities: Option<(MinimalView, MinimalView)>, randomBytes: seq<byte>)
      returns (r: Result<FollowRequest>)
      requires Valid()
      requires |randomBytes| == TokenLength
      modifies this, requests
      ensures Valid()
      ensures requestBy == requestTo ==> r == Err(BadRequest(SelfFollowMessage))
      ensures requestBy != requestTo && lookup(old(requests.records), requestBy, requestTo).Some? ==>
        r == Err(BadRequest(AlreadySentMessage))
      ensures r == Err(BadRequest(AlreadySentMessage)) ==> lookup(old(requests.records), requestBy, requestTo).Some?
      ensures requestBy != requestTo && lookup(old(requests.records), requestBy, requestTo).None? && identities.None? ==>
        r == Err(TypeError)
      ensures r.Ok? <==>
        (requestBy != requestTo && lookup(old(requests.records), requestBy, requestTo).None? && identities.Some?
         && !TokenInUse(old(requests.records), NewRequest(identities.value.0, identities.value.1, randomBytes).requestToken))
      ensures r.Err? ==> requests.records == old(requests.records) && notifications == old(notifications)
      ensures r.Ok? ==> r.value == NewRequest(identities.value.0, identities.value.1, randomBytes)
      ensures r.Ok? ==> requests.records == old(requests.records) + [r.value]
      ensures r.Ok? ==>
        (notifications == old(notifications) +
          [Notification(r.value.requestTo.id, FindPendingFollowRequests(old(requests.records), r.value.requestTo.id) + [r.value])])
    {
      if requestBy == requestTo {
        return Err(BadRequest(SelfFollowMessage));
      }
      if lookup(requests.records, requestBy, requestTo).Some? {
        return Err(BadRequest(AlreadySentMessage));
      }
      if identities.None? {
        return Err(TypeError);
      }
      var dto := NewRequest(identities.value.0, identities.value.1, randomBytes);
      if TokenInUse(requests.records, dto.requestToken) {
        r := requests.CreateFollowRequest(dto);
        return;
      }
      AppendPreserves(requests.records, dto);
      AppendPendingList(requests.records, dto, dto.requestTo.id);
      r := requests.CreateFollowRequest(dto);
      NotifyNewFollowRequest(dto.requestTo.id);
    }

    /** `createFollowRequest` as written, with `findActiveFollowRequest` as
        the duplicate check. That lookup never matches, so the duplicate
        branch is never taken. */
    method CreateFollowRequest(requestBy: Id, requestTo: Id,
                               identities: Option<(MinimalView, MinimalView)>, randomBytes: seq<byte>)
      returns (r: Result<FollowRequest>)
      requires Valid()
      requires |randomBytes| == TokenLength
      modifies this, requests
      ensures Valid()
      ensures requestBy == requestTo ==> r == Err(BadRequest(SelfFollowMessage))
      ensures FindActiveFollowRequest(old(requests.records), requestBy, requestTo).Some? ==> r.Err?
      ensures r != Err(BadRequest(AlreadySentMessage))
      ensures requestBy != requestTo && identities.None? ==> r == Err(TypeError)
      ensures r.Ok? <==>
        (requestBy != requestTo && identities.Some?
         && !TokenInUse(old(requests.records), NewRequest(identities.value.0, identities.value.1, randomBytes).requestToken))
      ensures r.Err? ==> requests.records == old(requests.records) && notifications == old(notifications)
      ensures r.Ok? ==> r.value == NewRequest(identities.value.0, identities.value.1, randomBytes)
      ensures r.Ok? ==> requests.records == old(requests.records) + [r.value]
      ensures r.Ok? ==>
        (notifications == old(notifications) +
          [Notification(r.value.requestTo.id, FindPendingFollowRequests(old(requests.records), r.value.requestTo.id) + [r.value])])
    {
      ActiveLookupNeverMatches(requests.records, requestBy, requestTo);
      r := CreateWithLookup(ActiveLookup, requestBy, requestTo, identities, randomBytes);
    }

    /** `createFollowRequest` with the by-id pending lookup: when the identity
        service answers for the two ids asked about, the store keeps at most
        one open request per pair. */
    method CreateFollowRequestDeduplicated(requestBy: Id, requestTo: Id,
                                           identities: Option<(MinimalView, MinimalView)>, randomBytes: seq<byte>)
      returns (r: Result<FollowRequest>)
      requires Valid()
      requires |randomBytes| == TokenLength
      modifies this, requests
      ensures Valid()
      ensures requestBy == requestTo ==> r == Err(BadRequest(SelfFollowMessage))
      ensures requestBy != requestTo && FindPendingFollowRequestBetweenTwo(old(requests.records), requestBy, requestTo).Some? ==>
        r == Err(BadRequest(AlreadySentMessage))
      ensures r.Ok? <==>
        (requestBy != requestTo && FindPendingFollowRequestBetweenTwo(old(requests.records), requestBy, requestTo).None?
         && identities.Some?
         && !TokenInUse(old(requests.records), NewRequest(identities.value.0, identities.value.1, randomBytes).requestToken))
      ensures r.Err? ==> requests.records == old(requests.records) && notifications == old(notifications)
      ensures r.Ok? ==> identities.Some? && r.value == NewRequest(identities.value.0, identities.value.1, randomBytes)
      ensures r.Ok? ==> requests.records == old(requests.records) + [r.value]
      ensures (OnePendingPerPair(old(requests.records)) &&
               (identities.Some? ==> identities.value.0.id == requestBy && identities.value.1.id == requestTo)) ==>
        OnePendingPerPair(requests.records)
    {
      ghost var before := requests.records;
      r := CreateWithLookup(PendingLookup, requestBy, requestTo, identities, randomBytes);
      if r.Ok? && OnePendingPerPair(before) && identities.value.0.id == requestBy && identities.value.1.id == requestTo {
        AppendKeepsOnePending(before, r.value);
      }
    }

    /** `revokeRequest(requestBy, requestTo)`: `None` and no event when there
        is no open request for the pair; otherwise the record as it was, and
        an event for `requestTo`. */
    method RevokeRequest(requestBy: Id, requestTo: Id) returns (r: Option<FollowRequest>)
      requires Valid()
      modifies this, requests
      ensures Valid()
      ensures r == Revoke(old(requests.records), requestBy, requestTo).result
      ensures requests.records == Revoke(old(requests.records), requestBy, requestTo).records
      ensures r.None? ==> notifications == old(notifications)
      ensures r.Some? ==> r.value.requestBy.id == requestBy && r.value.requestTo.id == requestTo && !r.value.isExpired
      ensures r.Some? ==>
        (notifications == old(notifications) + [Notification(requestTo, FindPendingFollowRequests(requests.records, requestTo))])
    {
      RevokePreserves(requests.records, requestBy, requestTo);
      r := requests.RevokeRequest(requestBy, requestTo);
      if r.None? {
        return;
      }
      NotifyNewFollowRequest(requestTo);
    }

    /** `respondToRequest(token, status)`: the three refusals, then the status
        update, then for an acceptance the edge from the requester to the
        addressee. `available` is whether the edge store accepts the write;
        when it does not, the error propagates and the request stays
        resolved. */
    method RespondToRequest(inviteToken: string, status: Option<Status>, available: bool) returns (r: Result<FollowRequest>)
      requires Valid()
      modifies requests, relationships.repository
      ensures Valid()
      ensures inviteToken == "" || status.None? ==> r == Err(BadRequest(MissingArgumentsMessage))
      ensures inviteToken != "" && status.Some? && !TokenInUse(old(requests.records), inviteToken) ==>
        r == Err(BadRequest(DetailsNotFoundMessage))
      ensures (inviteToken != "" && status.Some? && TokenInUse(old(requests.records), inviteToken)
               && UpdateStatus(old(requests.records), inviteToken, status.value).result.None?) ==>
        r == Err(BadRequest(InvalidTokenMessage))
      ensures r.Ok? ==> status.Some? && UpdateStatus(old(requests.records), inviteToken, status.value).result == Some(r.value)
      ensures r.Ok? ==> r.value.requestToken == inviteToken && r.value.isExpired && r.value.status == status.value
      ensures inviteToken == "" || status.None? || UpdateStatus(old(requests.records), inviteToken, status.value).result.None? ==>
        requests.records == old(requests.records) && relationships.repository.edges == old(relationships.repository.edges)
      ensures inviteToken != "" && status.Some? && UpdateStatus(old(requests.records), inviteToken, status.value).result.Some? ==>
        requests.records == UpdateStatus(old(requests.records), inviteToken, status.value).records
      ensures r.Ok? && status.value != Accepted ==> relationships.repository.edges == old(relationships.repository.edges)
      ensures r.Ok? && status.value == Accepted ==>
        relationships.repository.edges == old(relationships.repository.edges) + [Relationship(r.value.requestBy.id, r.value.requestTo.id)]
      ensures status == Some(Accepted) && !available ==> r.Err?
      ensures (inviteToken != "" && status.Some? && UpdateStatus(old(requests.records), inviteToken, status.value).result.Some?
               && (status.value != Accepted || available)) ==> r.Ok?
      ensures (inviteToken != "" && status == Some(Accepted) && !available
               && UpdateStatus(old(requests.records), inviteToken, Accepted).result.Some?) ==>
        r == Err(Unavailable) && relationships.repository.edges == old(relationships.repository.edges)
        && requests.records == UpdateStatus(old(requests.records), inviteToken, Accepted).records
    {
      if inviteToken == "" || status.None? {
        return Err(BadRequest(MissingArgumentsMessage));
      }
      var details := FindOneByToken(requests.records, inviteToken);
      if details.None? {
        return Err(BadRequest(DetailsNotFoundMessage));
      }
      ghost var before := requests.records;
      UpdateStatusPreserves(before, inviteToken, status.value);
      var updated := requests.UpdateFollowRequestStatus(inviteToken, status.value);
      if updated.None? {
        return Err(BadRequest(InvalidTokenMessage));
      }
      ghost var i :| 0 <= i < |before| && OpenWithToken(before[i], inviteToken)
        && requests.records == before[i := before[i].(status := status.value, isExpired := true)]
        && updated.value == requests.records[i];
      SameToken(before, i, details.value);
      if status.value == Accepted {
        var edge := relationships.CreateRelationship(details.value.requestBy.id, details.value.requestTo.id, available);
        if edge.Err? {
          return Err(edge.error);
        }
      }
      r := Ok(updated.value);
    }

    /** `getPendingFollowRequests(userId)`: under the lifecycle invariant,
        exactly the open requests addressed to the user. */
    function GetPendingFollowRequests(userId: Id): (r: seq<FollowRequest>)
      reads requests
      ensures ExpiryConsistent(requests.records) ==>
        forall x :: x in r <==> x in requests.records && x.requestTo.id == userId && !x.isExpired
    {
      if ExpiryConsistent(requests.records) then PendingMeansOpen(requests.records, userId); FindPendingFollowRequests(requests.records, userId)
      else FindPendingFollowRequests(requests.records, userId)
    }

    /** `getPendingFollowRequestBetweenTwo(followedBy, followed)`: a request
        exactly when an open pending one exists for the pair. */
    function GetPendingFollowRequestBetweenTwo(followedBy: Id, followed: Id): (r: Option<FollowRequest>)
      reads requests
      ensures r.Some? ==>
        (r.value in requests.records && r.value.requestBy.id == followedBy
         && r.value.requestTo.id == followed && !r.value.isExpired && r.value.status == Pending)
      ensures r.None? <==> forall x :: x in requests.records ==> !PendingBetween(x, followedBy, followed)
    {
      FindPendingFollowRequestBetweenTwo(requests.records, followedBy, followed)
    }
  }

  /** With unique tokens, the record found by token is the one at `i` that
      carries it, so both name the same two users. */
  lemma SameToken(records: seq<FollowRequest>, i: nat, found: FollowRequest)
    requires TokensUnique(records)
    requires i < |records| && found in records && found.requestToken == records[i].requestToken
    ensures found.requestBy == records[i].requestBy && found.requestTo == records[i].requestTo
  {
    var j :| 0 <= j < |records| && records[j] == found;
    assert records[j].requestToken == records[i].requestToken;
  }
}
