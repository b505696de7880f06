/** The follow-request collection (`follow-request.repository.ts`, with the
    record shape and unique token index of `follow-request.schema.ts`). */
module FollowRequests {
  import opened Wrappers
  import opened Seqs

  datatype Status = Pending | Accepted | Rejected

  /** The embedded identity snapshot of either party. */
  datatype UserInfo = UserInfo(id: Id, firstName: string, lastName: string, profilePhoto: string, isPrivate: bool)

  datatype FollowRequest = FollowRequest(
    requestBy: UserInfo,
    requestTo: UserInfo,
    requestToken: string,
    status: Status,
    isExpired: bool)

  /** The new collection after a find-and-update, and what the call returned. */
  datatype Outcome = Outcome(records: seq<FollowRequest>, result: Option<FollowRequest>)

  /** The lifecycle invariant: a request still open is pending. */
  predicate ExpiryConsistent(records: seq<FollowRequest>) {
    forall i :: 0 <= i < |records| && !records[i].isExpired ==> records[i].status == Pending
  }

  /** The unique index on `requestToken`. */
  predicate TokensUnique(records: seq<FollowRequest>) {
    forall i, j :: 0 <= i < j < |records| ==> records[i].requestToken != records[j].requestToken
  }

  predicate TokenInUse(records: seq<FollowRequest>, token: string) {
    exists i :: 0 <= i < |records| && records[i].requestToken == token
  }

  /** A top-level field's stored value: the two parties are embedded
      documents, an id in a query is an ObjectId, and the two never compare
      equal. */
  datatype FieldValue = ObjectIdValue(id: Id) | EmbeddedValue(info: UserInfo)

  function RequestByField(r: FollowRequest): FieldValue { EmbeddedValue(r.requestBy) }
  function RequestToField(r: FollowRequest): FieldValue { EmbeddedValue(r.requestTo) }

  /** The filter of `findActiveFollowRequest` as written: it compares the
      top-level `requestBy` and `requestTo` fields with ObjectIds. */
  predicate ActiveFilter(r: FollowRequest, requestBy: Id, requestTo: Id) {
    RequestByField(r) == ObjectIdValue(requestBy) && RequestToField(r) == ObjectIdValue(requestTo)
    && !r.isExpired && r.status == Pending
  }

  /** `findActiveFollowRequest(requestBy, requestTo)`. */
  function FindActiveFollowRequest(records: seq<FollowRequest>, requestBy: Id, requestTo: Id): (r: Option<FollowRequest>)
    ensures r.Some? ==> r.value in records && ActiveFilter(r.value, requestBy, requestTo)
    ensures r.None? <==> forall x :: x in records ==> !ActiveFilter(x, requestBy, requestTo)
  {
    First(records, (x: FollowRequest) => ActiveFilter(x, requestBy, requestTo))
  }

  /** The literal filter matches no record at all. */
  lemma ActiveLookupNeverMatches(records: seq<FollowRequest>, requestBy: Id, requestTo: Id)
    ensures FindActiveFollowRequest(records, requestBy, requestTo).None?
  {
    forall x | x in records ensures !ActiveFilter(x, requestBy, requestTo) {
      assert RequestByField(x).EmbeddedValue?;
    }
  }

  /** Open and pending, addressed to `userId`. */
  predicate PendingFor(r: FollowRequest, userId: Id) {
    r.requestTo.id == userId && !r.isExpired && r.status == Pending
  }

  /** `findPendingFollowRequests(userId)`, in store order. */
  function FindPendingFollowRequests(records: seq<FollowRequest>, userId: Id): (r: seq<FollowRequest>)
    ensures forall x :: x in r <==> x in records && PendingFor(x, userId)
  {
    Filter(records, (x: FollowRequest) => PendingFor(x, userId))
  }

  /** Open and pending, from `followedBy` to `followed`. */
  predicate PendingBetween(r: FollowRequest, followedBy: Id, followed: Id) {
    r.requestTo.id == followed && r.requestBy.id == followedBy && !r.isExpired && r.status == Pending
  }

  /** `findPendingFollowRequestBetweenTwo(followedBy, followed)`. */
  function FindPendingFollowRequestBetweenTwo(records: seq<FollowRequest>, followedBy: Id, followed: Id): (r: Option<FollowRequest>)
    ensures r.Some? ==> r.value in records && PendingBetween(r.value, followedBy, followed)
    ensures r.None? <==> forall x :: x in records ==> !PendingBetween(x, followedBy, followed)
  {
    First(records, (x: FollowRequest) => PendingBetween(x, followedBy, followed))
  }

  /** `findOneByToken(token)`: whatever the record's status or expiry. */
  function FindOneByToken(records: seq<FollowRequest>, token: string): (r: Option<FollowRequest>)
    ensures r.Some? ==> r.value in records && r.value.requestToken == token
    ensures r.None? <==> !TokenInUse(records, token)
  {
    First(records, (x: FollowRequest) => x.requestToken == token)
  }

  /** The filter of `updateFollowRequestStatus`. */
  predicate OpenWithToken(r: FollowRequest, token: string) {
    r.requestToken == token && !r.isExpired
  }

  /** `findOneAndUpdate({ requestToken, isExpired: false },
      { $set: { status, isExpired: true } }, { new: true })`: the first open
      record with that token is resolved and returned as updated. */
  function UpdateStatus(records: seq<FollowRequest>, token: string, status: Status): (o: Outcome)
    ensures o.result.None? <==> forall j :: 0 <= j < |records| ==> !OpenWithToken(records[j], token)
    ensures o.result.None? ==> o.records == records
    ensures o.result.Some? ==>
      exists i :: 0 <= i < |records| && OpenWithToken(records[i], token)
        && (forall j :: 0 <= j < i ==> !OpenWithToken(records[j], token))
        && o.records == records[i := records[i].(status := status, isExpired := true)]
        && o.result.value == o.records[i]
  {
    match FirstIndex(records, (x: FollowRequest) => OpenWithToken(x, token))
    case None => Outcome(records, None)
    case Some(i) =>
      var updated := records[i].(status := status, isExpired := true);
      Outcome(records[i := updated], Some(updated))
  }

  /** The filter of `revokeRequest`. */
  predicate OpenBetween(r: FollowRequest, requestBy: Id, requestTo: Id) {
    r.requestBy.id == requestBy && r.requestTo.id == requestTo && !r.isExpired
  }

  /** `findOneAndUpdate({ 'requestBy.id', 'requestTo.id', isExpired: false },
      { $set: { isExpired: true } })`: only the expiry flag changes, and
      without `new: true` the record is returned as it was before. */
  function Revoke(records: seq<FollowRequest>, requestBy: Id, requestTo: Id): (o: Outcome)
    ensures o.result.None? <==> forall j :: 0 <= j < |records| ==> !OpenBetween(records[j], requestBy, requestTo)
    ensures o.result.None? ==> o.records == records
    ensures o.result.Some? ==>
      exists i :: 0 <= i < |records| && OpenBetween(records[i], requestBy, requestTo)
        && (forall j :: 0 <= j < i ==> !OpenBetween(records[j], requestBy, requestTo))
        && o.records == records[i := records[i].(isExpired := true)]
        && o.result.value == records[i]
  {
    match FirstIndex(records, (x: FollowRequest) => OpenBetween(x, requestBy, requestTo))
    case None => Outcome(records, None)
    case Some(i) => Outcome(records[i := records[i].(isExpired := true)], Some(records[i]))
  }

  /** Both updates keep every token and both snapshots of every record. */
  predicate SameIdentities(a: seq<FollowRequest>, b: seq<FollowRequest>) {
    |a| == |b| &&
    forall i :: 0 <= i < |a| ==>
      a[i].requestToken == b[i].requestToken && a[i].requestBy == b[i].requestBy && a[i].requestTo == b[i].requestTo
  }

  /** Resolving a request keeps the lifecycle invariant (the status changes
      only together with the expiry flag) and the tokens. */
  lemma UpdateStatusPreserves(records: seq<FollowRequest>, token: string, status: Status)
    ensures SameIdentities(records, UpdateStatus(records, token, status).records)
    ensures ExpiryConsistent(records) ==> ExpiryConsistent(UpdateStatus(records, token, status).records)
    ensures TokensUnique(records) ==> TokensUnique(UpdateStatus(records, token, status).records)
  {
    var o := UpdateStatus(records, token, status);
    if o.result.Some? {
      var i :| 0 <= i < |records| && o.records == records[i := records[i].(status := status, isExpired := true)];
      assert forall j :: 0 <= j < |records| ==> o.records[j] == if j == i then records[i].(status := status, isExpired := true) else records[j];
    }
  }

  /** Revoking keeps the lifecycle invariant and the tokens, and it never
      changes a status. */
  lemma RevokePreserves(records: seq<FollowRequest>, requestBy: Id, requestTo: Id)
    ensures SameIdentities(records, Revoke(records, requestBy, requestTo).records)
    ensures forall j :: 0 <= j < |records| ==> Revoke(records, requestBy, requestTo).records[j].status == records[j].status
    ensures ExpiryConsistent(records) ==> ExpiryConsistent(Revoke(records, requestBy, requestTo).records)
    ensures TokensUnique(records) ==> TokensUnique(Revoke(records, requestBy, requestTo).records)
  {
    var o := Revoke(records, requestBy, requestTo);
    if o.result.Some? {
      var i :| 0 <= i < |records| && o.records == records[i := records[i].(isExpired := true)];
      assert forall j :: 0 <= j < |records| ==> o.records[j] == if j == i then records[i].(isExpired := true) else records[j];
    }
  }

  /** A token can be used once: after a successful response, a second one
      with the same token finds nothing to update. */
  lemma UpdateIsOneShot(records: seq<FollowRequest>, token: string, first: Status, second: Status)
    requires TokensUnique(records)
    requires UpdateStatus(records, token, first).result.Some?
    ensures UpdateStatus(UpdateStatus(records, token, first).records, token, second).result.None?
  {
    var o := UpdateStatus(records, token, first);
    var i :| 0 <= i < |records| && OpenWithToken(records[i], token)
      && o.records == records[i := records[i].(status := first, isExpired := true)];
    forall j | 0 <= j < |o.records| ensures !OpenWithToken(o.records[j], token) {
      if j != i {
        assert o.records[j] == records[j];
        if j < i { assert records[j].requestToken != records[i].requestToken; }
        else { assert records[i].requestToken != records[j].requestToken; }
      }
    }
  }

  /** A resolved request can still be looked up by its token. */
  lemma ResolvedStillFoundByToken(records: seq<FollowRequest>, token: string, status: Status)
    requires UpdateStatus(records, token, status).result.Some?
    ensures FindOneByToken(UpdateStatus(records, token, status).records, token).Some?
  {
    var o := UpdateStatus(records, token, status);
    var i :| 0 <= i < |records| && OpenWithToken(records[i], token)
      && o.records == records[i := records[i].(status := status, isExpired := true)];
    assert o.records[i].requestToken == token;
  }

  /** Under the lifecycle invariant the status test of the pending queries is
      implied by the expiry test. */
  lemma PendingMeansOpen(records: seq<FollowRequest>, userId: Id)
    requires ExpiryConsistent(records)
    ensures forall x :: x in records ==> (PendingFor(x, userId) <==> x.requestTo.id == userId && !x.isExpired)
  {
    forall x | x in records ensures PendingFor(x, userId) <==> x.requestTo.id == userId && !x.isExpired {
      var i :| 0 <= i < |records| && records[i] == x;
    }
  }

  /** Inserting a record keeps the lifecycle invariant when the record itself
      satisfies it; with a fresh token it keeps the tokens unique. */
  lemma AppendPreserves(records: seq<FollowRequest>, r: FollowRequest)
    requires ExpiryConsistent(records) && TokensUnique(records)
    requires !r.isExpired ==> r.status == Pending
    requires !TokenInUse(records, r.requestToken)
    ensures ExpiryConsistent(records + [r]) && TokensUnique(records + [r])
  {
    var s := records + [r];
    forall i, j | 0 <= i < j < |s| ensures s[i].requestToken != s[j].requestToken {
      if j == |records| {
        assert s[i] == records[i];
      }
    }
  }

  /** After inserting a request the pending list of its addressee is the old
      one with the new request at the end; other users' lists are unchanged. */
  lemma {:induction false} AppendPendingList(records: seq<FollowRequest>, r: FollowRequest, userId: Id)
    ensures FindPendingFollowRequests(records + [r], userId) ==
      FindPendingFollowRequests(records, userId) + (if PendingFor(r, userId) then [r] else [])
  {
    var p := (x: FollowRequest) => PendingFor(x, userId);
    FilterConcat(records, [r], p);
    assert [r][1..] == [];
  }

  class FollowRequestRepository {
    var records: seq<FollowRequest>

    /** The unique index on `requestToken`. */
    ghost predicate Valid()
      reads this
    {
      TokensUnique(records)
    }

    constructor ()
      ensures Valid() && records == []
    {
      records := [];
    }

    /** `create(dto)`: a reused token is a duplicate-key error and stores
        nothing. */
    method CreateFollowRequest(dto: FollowRequest) returns (r: Result<FollowRequest>)
      requires Valid()
      modifies this
      ensures Valid()
      ensures r.Err? <==> TokenInUse(old(records), dto.requestToken)
      ensures r.Err? ==> r.error == DuplicateKey("requestToken") && records == old(records)
      ensures r.Ok? ==> r.value == dto && records == old(records) + [dto]
    {
      if FindOneByToken(records, dto.requestToken).Some? {
        return Err(DuplicateKey("requestToken"));
      }
      records := records + [dto];
      r := Ok(dto);
      assert forall i :: 0 <= i < |old(records)| ==> records[i] == old(records)[i];
    }

    /** `updateFollowRequestStatus(token, status)`. */
    method UpdateFollowRequestStatus(token: string, status: Status) returns (r: Option<FollowRequest>)
      requires Valid()
      modifies this
      ensures Valid()
      ensures records == UpdateStatus(old(records), token, status).records
      ensures r == UpdateStatus(old(records), token, status).result
    {
      UpdateStatusPreserves(records, token, status);
      var o := UpdateStatus(records, token, status);
      records, r := o.records, o.result;
    }

    /** `revokeRequest(requestBy, requestTo)`. */
    method RevokeRequest(requestBy: Id, requestTo: Id) returns (r: Option<FollowRequest>)
      requires Valid()
      modifies this
      ensures Valid()
      ensures records == Revoke(old(records), requestBy, requestTo).records
      ensures r == Revoke(old(records), requestBy, requestTo).result
    {
      RevokePreserves(records, requestBy, requestTo);
      var o := Revoke(records, requestBy, requestTo);
      records, r := o.records, o.result;
    }
  }
}
