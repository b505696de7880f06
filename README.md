# Everstory core, modelled in Dafny

Everstory is a small social network built from three services. This project
models the part of each service that decides what the service stores and
what it answers:

- **Friendship service.** It holds the follow requests, with their lifecycle
  from pending to accepted, rejected or revoked. It also holds the social
  graph of directed follow edges, and it generates the invitation tokens.
- **Identity service.** It holds the user collection. It composes a user's
  detailed profile from four replies sent by the other services. It also
  builds the response objects (the minimal and detailed user views).
- **Media service.** It holds the post collection with its pagination. It
  derives the blob-storage ids. It fixes the argument checks and the order of
  effects for uploading, deleting and removing images.

Each Mongo collection is a `seq` field of a repository class. The methods
that change the collection are proved against pure functions of the old
collection (`UpdateStatus`, `Revoke`, `RemoveFirst`, `RemoveAt`). The
properties the services promise are lemmas about those functions, or
invariants the classes keep:

- a request still open is pending;
- tokens are unique;
- posts are kept in creation order with unique ids;
- user ids and emails are unique.

Replies from other services, clocks, random bytes and store failures are
parameters. The `Peer` type stands for a settled promise. The outside calls
made by the friendship and media services are ghost logs
(`FollowRequestService.notifications`, `ImageService.effects`).

Files, one module each:

- `wrappers.dfy`: `Option`, `Result`, `Peer` and the error kinds.
- `seqs.dfy`: `findOne`, `find` and `countDocuments` as functions over a sequence.
- `token_generator.dfy`: the invitation-token generator.
- `follow_requests.dfy`: the follow-request collection.
- `follow_request_service.dfy`: the follow-request orchestrator.
- `relationships.dfy`: the follow-edge collection and its service.
- `users.dfy`: the user collection.
- `user_dtos.dfy`: the two response objects.
- `auth.dfy`: the identity service.
- `posts.dfy`: the post collection.
- `public_ids.dfy`: the storage-id derivations.
- `images.dfy`: the media service.

## Model

| member | source | states |
|---|---|---|
| TokenGenerator.CharIndex | backend/friendship-service/src/common/util/token-generator.util.ts:11 | the index is below 62 and is floor(byte*62/256): `k*256 <= byte*62 < (k+1)*256` |
| TokenGenerator.GenerateToken | backend/friendship-service/src/common/util/token-generator.util.ts:8-14 | one character per byte; the character at position i is the alphabet entry at `CharIndex` of byte i, so it is taken from the alphabet |
| TokenGenerator.AlphabetIsAlphanumeric | backend/friendship-service/src/common/util/token-generator.util.ts:4-6 | the alphabet has 62 characters, all ASCII letters or digits |
| TokenGenerator.CharIndexMonotone | backend/friendship-service/src/common/util/token-generator.util.ts:11 | a larger byte never picks an earlier character |
| TokenGenerator.CharIndexEnds | backend/friendship-service/src/common/util/token-generator.util.ts:11 | byte 0 gives 'A' and byte 255 gives '9' |
| TokenGenerator.EveryCharacterReachable | backend/friendship-service/src/common/util/token-generator.util.ts:11 | every character of the alphabet is picked by some byte, and the least such byte is given |
| TokenGenerator.CharIndexBias | backend/friendship-service/src/common/util/token-generator.util.ts:11 | the mapping is not uniform: 'A' has five bytes and 'B' has four |
| TokenGenerator.GenerateTokenConcat | backend/friendship-service/src/common/util/token-generator.util.ts:8-14 | the token is a position-by-position function of the bytes: concatenated bytes give concatenated tokens |
| FollowRequests.FindActiveFollowRequest | backend/friendship-service/src/friend/follow-request.repository.ts:43-53 | the literal filter, which compares the embedded snapshots with ObjectIds; a result is a stored record that passes it, and none means no record passes |
| FollowRequests.ActiveLookupNeverMatches | backend/friendship-service/src/friend/follow-request.repository.ts:47-52 | the literal filter matches no record in any store |
| FollowRequests.FindPendingFollowRequests | backend/friendship-service/src/friend/follow-request.repository.ts:55-64 | exactly the records addressed to the user that are open and pending |
| FollowRequests.FindPendingFollowRequestBetweenTwo | backend/friendship-service/src/friend/follow-request.repository.ts:66-82 | a record iff an open pending request exists from the first user to the second, matched by id; the result is such a record |
| FollowRequests.FindOneByToken | backend/friendship-service/src/friend/follow-request.repository.ts:100-104 | a record carrying the token, found whatever its status or expiry; none iff no record has the token |
| FollowRequests.UpdateStatus | backend/friendship-service/src/friend/follow-request.repository.ts:84-98 | only the first open record with the token changes: it gets the status and `isExpired` true, and the updated record is returned; with no open match nothing changes and the result is null |
| FollowRequests.Revoke | backend/friendship-service/src/friend/follow-request.repository.ts:106-122 | only the first open record for the pair (by id) changes, and only its expiry flag; the record is returned as it was before the update |
| FollowRequests.UpdateStatusPreserves | backend/friendship-service/src/friend/follow-request.repository.ts:88-97 | resolving keeps every token and both snapshots, the invariant "open implies pending", and token uniqueness |
| FollowRequests.RevokePreserves | backend/friendship-service/src/friend/follow-request.repository.ts:110-121 | revoking keeps tokens, snapshots and every status, and keeps both invariants |
| FollowRequests.UpdateIsOneShot | backend/friendship-service/src/friend/follow-request.repository.ts:89-95 | once a response has succeeded, a second one with the same token finds nothing |
| FollowRequests.ResolvedStillFoundByToken | backend/friendship-service/src/friend/follow-request.repository.ts:100-104 | a resolved request is still found by its token |
| FollowRequests.PendingMeansOpen | backend/friendship-service/src/friend/follow-request.repository.ts:55-64 | under the lifecycle invariant the status test of the pending query is implied by the expiry test |
| FollowRequests.AppendPreserves | backend/friendship-service/src/friend/follow-request.repository.ts:30-40 | inserting a consistent record whose token is fresh keeps both invariants |
| FollowRequests.AppendPendingList | backend/friendship-service/src/friend/follow-request.repository.ts:55-64 | after an insert the addressee's pending list is the old list plus the new record, and other users' lists do not change |
| FollowRequests.FollowRequestRepository.CreateFollowRequest | backend/friendship-service/src/friend/schema/follow-request.schema.ts:35-39 | a reused token is a duplicate-key error that stores nothing; otherwise the record is appended and returned |
| FollowRequests.FollowRequestRepository.UpdateFollowRequestStatus | backend/friendship-service/src/friend/follow-request.repository.ts:84-98 | the new store and the result are `UpdateStatus` of the old store, and token uniqueness is kept |
| FollowRequests.FollowRequestRepository.RevokeRequest | backend/friendship-service/src/friend/follow-request.repository.ts:106-122 | the new store and the result are `Revoke` of the old store, and token uniqueness is kept |
| FollowRequestOrchestrator.NewRequest | backend/friendship-service/src/friend/follow-request.service.ts:77-95 | a new request is pending and not expired, its token has 10 alphanumeric characters, and both snapshots copy the identities field for field |
| FollowRequestOrchestrator.ActiveLookup | backend/friendship-service/src/friend/follow-request.service.ts:45-53 | the duplicate lookup as written never finds a record |
| FollowRequestOrchestrator.PendingLookup | backend/friendship-service/src/friend/follow-request.repository.ts:66-82 | the by-id lookup finds nothing iff no open pending request exists for the pair |
| FollowRequestOrchestrator.DuplicateRequestNotDetected | backend/friendship-service/src/friend/follow-request.repository.ts:47-52 | with one pending request from a to b, the literal lookup misses it while the by-id lookup finds it, and a second insert leaves two open requests for one pair |
| FollowRequestOrchestrator.AppendKeepsOnePending | backend/friendship-service/src/friend/follow-request.service.ts:45-53 | inserting a request the by-id lookup did not find keeps at most one open pending request per pair |
| FollowRequestOrchestrator.FollowRequestService.NotifyNewFollowRequest | backend/friendship-service/src/friend/follow-request.gateway.ts:12-16 | the event logged carries the user and that user's current pending list |
| FollowRequestOrchestrator.FollowRequestService.CreateWithLookup | backend/friendship-service/src/friend/follow-request.service.ts:38-109 | the steps in order. Self-follow fails first. A found duplicate fails next. A failed identity call fails when the snapshot is built. A reused token fails at insert. Every failure leaves the store and the log unchanged. On success the new request is appended, and then one event goes to the addressee with the pending list after the insert. |
| FollowRequestOrchestrator.FollowRequestService.CreateFollowRequest | backend/friendship-service/src/friend/follow-request.service.ts:38-109 | creation as written: a self-follow fails before any store access; a match of the active lookup makes creation fail; the duplicate error is never raised; success iff the ids differ, the identities arrive and the token is fresh |
| FollowRequestOrchestrator.FollowRequestService.CreateFollowRequestDeduplicated | backend/friendship-service/src/friend/follow-request.service.ts:45-53 | with the by-id lookup an open request for the pair always gives the duplicate error; creation succeeds exactly when the users differ, no open pending request exists for the pair (so a new request succeeds once the earlier one was resolved or revoked), the identities arrive and the token is fresh; when the identity service answers for the ids asked, the store keeps one open request per pair |
| FollowRequestOrchestrator.FollowRequestService.RevokeRequest | backend/friendship-service/src/friend/follow-request.service.ts:111-135 | with no open request for the pair: null, no change and no event; otherwise the pre-update record, `Revoke` applied, and one event for the addressee with the new pending list |
| FollowRequestOrchestrator.FollowRequestService.RespondToRequest | backend/friendship-service/src/friend/follow-request.service.ts:156-190 | three refusals: a missing token or status, an unknown token, and an already resolved token; each leaves the requests and the edges unchanged; otherwise `UpdateStatus` is applied, and only an acceptance appends the edge from requester to addressee after the update; when the edge write fails after the update, the store's error is returned, no edge is added, and the request stays resolved and expired; a response whose update matched succeeds unless it is an acceptance whose edge write fails, so an acceptance with a working edge store returns the resolved request and appends the edge |
| FollowRequestOrchestrator.FollowRequestService.GetPendingFollowRequests | backend/friendship-service/src/friend/follow-request.service.ts:137-154 | under the lifecycle invariant, exactly the open requests addressed to the user |
| FollowRequestOrchestrator.FollowRequestService.GetPendingFollowRequestBetweenTwo | backend/friendship-service/src/friend/follow-request.service.ts:192-219 | a stored open pending request between the two users, and none exactly when no such request exists |
| FollowRequestOrchestrator.SameToken | backend/friendship-service/src/friend/follow-request.service.ts:178-189 | with unique tokens, the record found by token and the record updated are the same, so the edge joins the request's own two users |
| Relationships.FindRelationship | backend/friendship-service/src/friend/relationship.repository.ts:28-41 | the edge asked for, and none iff it is not stored |
| Relationships.FollowersAndFollowingCount | backend/friendship-service/src/friend/relationship.repository.ts:43-57 | followers count the edges into the user and following counts the edges out of the user |
| Relationships.RemoveFirst | backend/friendship-service/src/friend/relationship.repository.ts:59-69 | removes one occurrence of the edge, keeping the order of the rest; no change when the edge is absent |
| Relationships.AppendCounts | backend/friendship-service/src/friend/relationship.repository.ts:15-26 | appending (a, b) adds one follower to b and one followed account to a, and changes no other count |
| Relationships.RemoveFirstCounts | backend/friendship-service/src/friend/relationship.repository.ts:59-69 | removing a present edge takes exactly one from each of the two counts it touches |
| Relationships.CreateThenRemoveRestoresCounts | backend/friendship-service/src/friend/relationship.repository.ts:15-26 | creating and then removing the same pair restores every count |
| Relationships.RemoveKeepsDuplicate | backend/friendship-service/src/friend/relationship.repository.ts:59-69 | with a duplicated edge one removal leaves the other copy |
| Relationships.FollowingIsDirected | backend/friendship-service/src/friend/relationship.service.ts:47-60 | an edge from a to b is found in that direction only |
| Relationships.RelationshipRepository.CreateRelationship | backend/friendship-service/src/friend/relationship.repository.ts:15-26 | appends one edge with no duplicate check and returns it; a failed write changes nothing |
| Relationships.RelationshipRepository.RemoveRelationship | backend/friendship-service/src/friend/relationship.repository.ts:59-69 | the new store is `RemoveFirst` of the old one; null iff the edge was absent, else the removed edge |
| Relationships.RelationshipService.CreateRelationship | backend/friendship-service/src/friend/relationship.service.ts:13-26 | the inserted edge, or the store's own error (`Unavailable`) with nothing stored |
| Relationships.RelationshipService.UnfollowUser | backend/friendship-service/src/friend/relationship.service.ts:28-44 | null iff no edge was removed, otherwise the removed edge |
| Relationships.RelationshipService.IsFollowing | backend/friendship-service/src/friend/relationship.service.ts:47-60 | true iff the edge from the first user to the second is stored |
| Relationships.RelationshipService.GetUserFollowerFollowingCount | backend/friendship-service/src/friend/relationship.service.ts:62-71 | the store's two counts, passed through unchanged |
| Users.LowerChar | backend/auth-service/src/auth/user.repository.ts:33-35 | an ASCII capital becomes its own small letter (same place in the alphabet) and every other character is kept |
| Users.ToLower | backend/auth-service/src/auth/user.repository.ts:33-35 | the length is kept, each character is `LowerChar` of the input's character at that position, the result has no capital, and non-capitals are kept |
| Users.ToLowerFixesLower | backend/auth-service/src/auth/user.repository.ts:33-35 | a string with no capitals is its own lowercase |
| Users.ToLowerIdempotent | backend/auth-service/src/auth/user.repository.ts:33-35 | lowercasing twice is lowercasing once |
| Users.FindByEmail | backend/auth-service/src/auth/user.repository.ts:17-26 | a stored user with exactly that email, and none iff no user has it |
| Users.MixedCaseQueryMisses | backend/auth-service/src/auth/user.repository.ts:17-36 | with emails stored lowercased, a query holding a capital finds nobody |
| Users.FindUserById | backend/auth-service/src/auth/user.repository.ts:74-81 | the stored user with that id, without the password, and none iff no user has the id |
| Users.FindUserMinimalDetailsForIds | backend/auth-service/src/auth/user.repository.ts:88-97 | exactly the stored users whose id is in the list |
| Users.UserRepository.CreateUser | backend/auth-service/src/auth/user.repository.ts:28-36 | stores the email lowercased and every other field as given; a taken id or email is a duplicate-key error that stores nothing |
| Users.UserRepository.UpdateUserByEmail | backend/auth-service/src/auth/user.repository.ts:38-41 | sets only the supplied fields, on the users with that email, and reports whether one matched |
| Users.UserRepository.FetchUsers | backend/auth-service/src/auth/user.repository.ts:48-50 | without a search string, every stored user is returned |
| Users.UserRepository.UpdatePrivacySettingsForUser | backend/auth-service/src/auth/user.repository.ts:99-115 | sets `isPrivate` on that user only and returns the updated record without its password; null iff the id is unknown |
| UserDtos.MinimalOf | backend/auth-service/src/auth/dto/response/user-minimal.dto.ts:10-16 | an absent user gives four empty strings and private; a present user's fields are copied, with `''` for a missing photo; the view is public iff the user's stored flag is `false` |
| UserDtos.MinimalKeepsFalsyValues | backend/auth-service/src/auth/dto/response/user-minimal.dto.ts:11-15 | `??` keeps an empty name, an empty photo and an explicit `false` |
| UserDtos.DetailedOf | backend/auth-service/src/auth/dto/response/user-deatiled.dto.ts:8-14 | the minimal fields follow `MinimalOf`; `totalPosts` defaults to 0; posts are left unset iff the user is stored as private, and otherwise default to `[]` |
| UserDtos.AbsentPrivacyReadsPrivateButShowsPosts | backend/auth-service/src/auth/dto/response/user-deatiled.dto.ts:9-13 | a user with no stored privacy setting reads as private, yet its posts are assigned |
| UserDtos.WithheldPostsMeansPrivate | backend/auth-service/src/auth/dto/response/user-deatiled.dto.ts:11-13 | posts are withheld only when the minimal fields say private |
| UserDtos.UserMinimalDTO.constructor | backend/auth-service/src/auth/dto/response/user-minimal.dto.ts:10-16 | the fields are `MinimalOf(user)` |
| UserDtos.UserMinimalDTO.SetId | backend/auth-service/src/auth/dto/response/user-minimal.dto.ts:18-24 | the getter returns the value set and the other fields do not change |
| UserDtos.UserMinimalDTO.SetFirstName | backend/auth-service/src/auth/dto/response/user-minimal.dto.ts:26-32 | the getter returns the value set and the other fields do not change |
| UserDtos.UserMinimalDTO.SetLastName | backend/auth-service/src/auth/dto/response/user-minimal.dto.ts:34-40 | the getter returns the value set and the other fields do not change |
| UserDtos.UserMinimalDTO.SetProfilePhoto | backend/auth-service/src/auth/dto/response/user-minimal.dto.ts:42-48 | the getter returns the value set and the other fields do not change |
| UserDtos.UserMinimalDTO.SetIsPrivate | backend/auth-service/src/auth/dto/response/user-minimal.dto.ts:50-56 | the getter returns the value set and the other fields do not change |
| UserDtos.UserDetailedDTO.constructor | backend/auth-service/src/auth/dto/response/user-deatiled.dto.ts:8-14 | the fields are `DetailedOf(user, totalPosts, posts)` |
| UserDtos.UserDetailedDTO.SetTotalPosts | backend/auth-service/src/auth/dto/response/user-deatiled.dto.ts:16-22 | the getter returns the value set and the other fields do not change |
| UserDtos.UserDetailedDTO.SetPosts | backend/auth-service/src/auth/dto/response/user-deatiled.dto.ts:24-30 | the getter returns the posts set and the other fields do not change |
| Auth.Settled | backend/auth-service/src/auth/auth.service.ts:238-259 | a fulfilled reply gives its value and a rejected one gives the default |
| Auth.GetUserDetailsById | backend/auth-service/src/auth/auth.service.ts:196-293 | an unknown target fails with "User not found". Otherwise each reply falls back to its own default. Posts are empty iff the target is private and the viewer does not follow; otherwise they are the media reply's posts. `isFollowing` is the real value for a private target and true for a public one. `isRequested` is whether a request came back. |
| Auth.AllPeersFailed | backend/auth-service/src/auth/auth.service.ts:238-259 | with every reply rejected an existing user still gets a profile, built from the defaults |
| Auth.PostsOnlyFromMedia | backend/auth-service/src/auth/auth.service.ts:287-288 | the result's posts are the media reply's posts or none, and a private target's posts reach only a follower |
| Auth.Minimals | backend/auth-service/src/auth/auth.service.ts:189 | one minimal view per user, in order |
| Auth.FetchUsers | backend/auth-service/src/auth/auth.service.ts:173-194 | without `discardMe` the view of every found user; with it, the views of the users kept by the id filter |
| Auth.DiscardMeRemovesExactlyMe | backend/auth-service/src/auth/auth.service.ts:181-185 | with `discardMe` the listing holds a view iff it belongs to a found user whose id is not the logged-in user's |
| Auth.FetchUsersKeepsOrder | backend/auth-service/src/auth/auth.service.ts:181-189 | the listing distributes over concatenation, so it keeps the store's order |
| Auth.MinimalsConcat | backend/auth-service/src/auth/auth.service.ts:189 | `map` distributes over concatenation |
| Auth.GetMultipleUserMinimalDetailsById | backend/auth-service/src/auth/auth.service.ts:295-309 | fails iff either user is missing; otherwise the two views in argument order |
| Auth.OrZero | backend/auth-service/src/auth/auth.service.ts:136-137 | JavaScript's `x or 0` on a count: the number when it is present and non-zero, else 0 |
| Auth.FindByEmailWithCounts | backend/auth-service/src/auth/auth.service.ts:110-141 | an unknown email is the "No user found" error; a failed count call is rethrown; otherwise the stored user with each missing count set to 0 |
| Auth.StoredPhoto | backend/auth-service/src/auth/auth.service.ts:155 | null iff the URL is empty, and otherwise the URL |
| Auth.AuthService.UpdateProfilePhoto | backend/auth-service/src/auth/auth.service.ts:143-171 | a missing user is the generic InternalServerError and changes nothing; otherwise only that user's photo becomes `StoredPhoto(url)`, with the removed or updated message |
| Posts.Reverse | backend/image-service/src/image/image.repository.ts:42 | reverses the order |
| Posts.NewestFirst | backend/image-service/src/image/image.repository.ts:42 | `sort({ createdAt: -1 })` of a collection in creation order is newest first and a permutation |
| Posts.ReverseMultiset | backend/image-service/src/image/image.repository.ts:42 | reversing is a permutation |
| Posts.FilterIncreasing | backend/image-service/src/image/image.repository.ts:41 | filtering keeps creation order |
| Posts.Window | backend/image-service/src/image/image.repository.ts:43-44 | `skip(s).limit(l)`: the posts from position s, at most l of them (all for 0, the absolute value for negative l), in order |
| Posts.WindowOfDecreasing | backend/image-service/src/image/image.repository.ts:40-45 | a window of a newest-first list is newest first, and all its posts come from the list |
| Posts.Paginate | backend/image-service/src/image/image.repository.ts:38-53 | a negative skip is an error; otherwise the window at `(page-1)*pageSize`, the total count, and `nextPage == page+1` iff `skip + pageSize < total` |
| Posts.PageBounds | backend/image-service/src/image/image.repository.ts:43-51 | with a positive page size a page holds at most `pageSize` posts, and a next page is offered iff a post lies beyond this page |
| Posts.EveryPostOnItsPage | backend/image-service/src/image/image.repository.ts:38-45 | post i stands at item `i % pageSize` of page `i / pageSize + 1` |
| Posts.PostsOf | backend/image-service/src/image/image.repository.ts:41 | exactly the posts of the user, kept in creation order |
| Posts.PostsOfAny | backend/image-service/src/image/image.repository.ts:70 | exactly the posts whose owner is in the list, kept in creation order |
| Posts.FindPostsByUser | backend/image-service/src/image/image.repository.ts:29-54 | the result is `Paginate` of the user's posts newest first: an error iff `(page-1)*pageSize < 0`, otherwise the window of at most `pageSize` posts starting at that skip, `nextPage == page+1` iff posts remain beyond it; the page holds only the user's posts, newest first, and `totalCount` is all of the user's posts whatever the page |
| Posts.FindPostsByUsers | backend/image-service/src/image/image.repository.ts:56-83 | the result is `Paginate` of the posts whose owner is in the list, newest first: the same error, window, `nextPage` and `totalCount` rules as `FindPostsByUser` |
| Posts.RemoveAtKeepsOrder | backend/image-service/src/image/image.repository.ts:85-87 | deleting a post keeps creation order and unique ids |
| Posts.RemoveAtRemovesId | backend/image-service/src/image/image.repository.ts:85-87 | with unique ids, deleting one post removes exactly the post with its id |
| Posts.PostRepository.CreatePost | backend/image-service/src/image/image.repository.ts:16-27 | a missing or empty caption is stored as `''`; the post is appended, newer than every stored post; a taken id is a duplicate-key error that stores nothing |
| Posts.PostRepository.DeletePostById | backend/image-service/src/image/image.repository.ts:85-87 | removes at most one post, exactly the one with that id, and reports the count |
| PublicIds.ProfilePublicId | backend/image-service/src/image/image.service.ts:48 | the email with every `@` and `.` replaced by `_`, of equal length |
| PublicIds.ProfilePublicIdClean | backend/image-service/src/image/image.service.ts:48 | the profile id holds no `@` and no `.` |
| PublicIds.Split | backend/image-service/src/image/image.service.ts:164 | `split` gives at least one piece |
| PublicIds.SplitPiecesClean | backend/image-service/src/image/image.service.ts:164 | no piece holds the separator |
| PublicIds.JoinSplit | backend/image-service/src/image/image.service.ts:164-166 | joining the pieces of a split gives the string back |
| PublicIds.Join | backend/image-service/src/image/image.service.ts:166 | `join(sep)`: pieces without the separator split back into exactly those pieces |
| PublicIds.JoinAppend | backend/image-service/src/image/image.service.ts:166 | joining two non-empty lists of pieces puts one separator between their joins |
| PublicIds.SplitWithoutSeparator | backend/image-service/src/image/image.service.ts:164 | a string without the separator is one piece |
| PublicIds.SplitConcat | backend/image-service/src/image/image.service.ts:164 | a separator between two strings splits between their pieces |
| PublicIds.LastTwo | backend/image-service/src/image/image.service.ts:165 | `slice(-2)`: the last two pieces, or all of them when there are fewer |
| PublicIds.PathTail | backend/image-service/src/image/image.service.ts:164-166 | the last two segments, joined, are a suffix of the URL, and a URL without a slash is its own tail |
| PublicIds.UrlPublicId | backend/image-service/src/image/image.service.ts:163-167 | the same derivation serves `deletePost` at lines 214-218; the id is a prefix of the URL's tail: the tail with the extension cut off when `/\.[^.]+$/` matches (see `StripExtensionIsRegex`); a URL without a slash gives itself without its extension |
| PublicIds.LastIndexOf | backend/image-service/src/image/image.service.ts:167 | the position of the last occurrence of the character, or none when it does not occur |
| PublicIds.StripExtension | backend/image-service/src/image/image.service.ts:167 | the result is a prefix of the input |
| PublicIds.StripExtensionIsRegex | backend/image-service/src/image/image.service.ts:167 | the cut falls exactly where `/\.[^.]+$/` matches, and nothing is cut where it matches nowhere |
| PublicIds.UrlPublicIdOfStoredImage | backend/image-service/src/image/image.service.ts:163-167 | for `<prefix>/<folder>/<name>.<ext>` the id is `<folder>/<name>` |
| PublicIds.UrlPublicIdOfOneSegment | backend/image-service/src/image/image.service.ts:214-218 | a one-segment URL `<name>.<ext>` keeps its only segment and loses the extension |
| PublicIds.UrlPublicIdKeepsTrailingDot | backend/image-service/src/image/image.service.ts:214-218 | a final dot with nothing after it is kept: the id of `<folder>/<name>.` is itself |
| Images.GetMyPosts | backend/image-service/src/image/image.service.ts:190-202 | an empty page becomes the bare `{ posts: [], nextPage: null }` shape, and any other page is the repository's result unchanged |
| Images.NoPostsIffPastTheEnd | backend/image-service/src/image/image.service.ts:196-199 | for a valid page the empty shape comes iff the page starts past the user's last post |
| Images.NoPostsForUserWithoutPosts | backend/image-service/src/image/image.service.ts:196-199 | a user without posts always gets the empty shape |
| Images.ImageService.UploadPost | backend/image-service/src/image/image.service.ts:94-152 | a missing file, then a missing user id, is refused with no effect. Otherwise the upload to `posts` under `userId_<random id>` is logged first. A failed upload stores nothing. A stored post has the uploaded URL and the caption defaulted to `''`, and the URL is returned. |
| Images.ImageService.RemoveProfilePhoto | backend/image-service/src/image/image.service.ts:154-188 | an empty URL is refused before anything else. Otherwise the destroy under the derived id comes first, and the account service is told only after it succeeded. Any later failure is the one "Failed to delete image" error. |
| Images.ImageService.DeletePost | backend/image-service/src/image/image.service.ts:204-235 | a missing id fails with no effect. Otherwise the post record is deleted before the storage id is derived, even when the URL is missing or the destroy fails. Success iff both of those succeed. Every failure is one "Failed to delete post" error. |

## Left out

- Password hashing, JWT signing and verification, `signup` and `login`: these are foreign cryptography.
- RPC transport and `Promise.allSettled`: each peer reply is an input (`Peer`, `Option`, `Result`), and no interleaving of concurrent calls is modelled.
- The blob store (Cloudinary): its calls are log entries, and whether they succeed is a parameter. `uploadImage` for profile pictures is modelled only through its id, `ProfilePublicId`. Its `return { message }` inside the promise executor never settles, and that is not modelled.
- Randomness (`randomBytes`, `nanoid`): the bytes and the random id are parameters.
- WebSocket delivery: a notification is a ghost log entry. A failure while sending is not modelled.
- Regex user search (`search.util.ts`, the search branch of `fetchUsers`): Mongo `$regex` over user input is out of scope.
- Controllers, routing, modules, configuration and event-name constants: these are wiring. This includes the controller calls that pass the wrong number of arguments or name methods the service lacks.
- ObjectId conversion: ids are opaque strings. A malformed id that makes `new Types.ObjectId` throw is not modelled.
- The user schema: `user.schema.ts` declares a `private` flag (default `true`) and no `profilePhoto` or `isPrivate`. The code writes and reads `isPrivate` and `profilePhoto`. The model assumes both are declared in the base schema, which is not part of this model, and that `private` is never read. Under Mongoose's strict mode with only the schema shown, both `$set`s would be dropped, and that outcome is not modelled.
- Schema validation (`required`, type casts) beyond the unique indexes on the request token, the user id and email, and the post id.
- Timestamps: a store counter (`PostRepository.clock`) stands in for `createdAt`.
- A response status outside the enum: `Status` has exactly the three values.
- Field-level failures of the stores beyond duplicate keys and the `available` write flag.
- NaN paging: the aggregator's `GET_USER_POSTS` request carries no page or page size, so the media reply is an input to `GetUserDetailsById`.
- `findByEmail`'s `hidePassword` projection, which selects `-passsword`, is not used by the modelled operations.
- `findAllPublicAccountUsers`: it is not one of the modelled operations.
- The `UserDetailedDTO` constructor takes three arguments, but the identity service passes seven. The two are modelled as written, as `DetailedOf` and `Composition`, and are not reconciled.
- Inheritance: `UserDetailedDTO` holds its `UserMinimalDTO` part as the object `minimal`.
- Users.LowerChar: only ASCII capitals are lowered. `toLowerCase` also maps other scripts; Unicode case mapping is out of scope.
- Users.ToLower: ASCII only, for the same reason.
- Users.UserRepository.FetchUsers: the contract states the length and that every user is returned, not that the order is the store's.
- Auth.OrZero: models `|| 0` on a present or missing number. Other falsy values (null, NaN) are not modelled.
- Auth.FindByEmailWithCounts: the document is the user record with the counts beside it, not a spread object. The record includes the password, as in the source.
- Posts.Paginate: JavaScript numbers are modelled as unbounded integers. Fractional and NaN pages are out of scope.
- FollowRequestOrchestrator.FollowRequestService.CreateFollowRequest: the literal lookup is assumed to run and match nothing. If the database driver rejected the query instead, every create would fail; the driver's cast rules are out of scope.
- Images.ImageService.RemoveProfilePhoto: `destroyed` means that the destroy call resolved. A destroy that resolves with "not found" counts as resolved, as in the source.

## Findings

| source | as written | input that shows it | evidently intended | confidence | as-written member | corrected member |
|---|---|---|---|---|---|---|
| backend/friendship-service/src/friend/follow-request.repository.ts:47-52 | the duplicate check compares the top-level embedded `requestBy` and `requestTo` snapshots with bare ObjectIds, so it never matches and `createFollowRequest` never raises its duplicate error | a store holding a pending request from a to b, then a second `createFollowRequest(a, b)`: the lookup misses it and a second pending request for the same pair is inserted | match on `requestBy.id` and `requestTo.id`, as `findPendingFollowRequestBetweenTwo` does, so that a pair has at most one open request | medium, not executed | FollowRequestOrchestrator.DuplicateRequestNotDetected | FollowRequestOrchestrator.FollowRequestService.CreateFollowRequestDeduplicated |
