/** The identity service's user collection (`user.repository.ts`). */
module Users {
  import opened Wrappers
  import opened Seqs

  /** A stored user. `profilePhoto` and `isPrivate` may be absent (undefined
      or null); `password` is absent in the projections that drop it. */
  datatype User = User(
    id: Id,
    email: string,
    password: Option<string>,
    firstName: string,
    lastName: string,
    profilePhoto: Option<string>,
    isPrivate: Option<bool>)

  datatype CreateUserDTO = CreateUserDTO(firstName: string, lastName: string, email: string, password: string)

  /** The fields an `updateUserByEmail` `$set` may carry; `None` leaves a field
      alone, and `profilePhoto := Some(None)` stores null. */
  datatype UserPatch = UserPatch(
    firstName: Option<string>,
    lastName: Option<string>,
    profilePhoto: Option<Option<string>>,
    isPrivate: Option<bool>)

  /** `String.prototype.toLowerCase` on one character (ASCII letters only). */
  function LowerChar(c: char): (d: char)
    ensures 'A' <= c <= 'Z' ==> 'a' <= d <= 'z' && d as int - 'a' as int == c as int - 'A' as int
    ensures !('A' <= c <= 'Z') ==> d == c
  {
    if 'A' <= c <= 'Z' then (c as int - 'A' as int + 'a' as int) as char else c
  }

  predicate IsLower(s: string) {
    forall i :: 0 <= i < |s| ==> !('A' <= s[i] <= 'Z')
  }

  function ToLower(s: string): (r: string)
    ensures |r| == |s|
    ensures IsLower(r)
    ensures forall i :: 0 <= i < |s| ==> r[i] == LowerChar(s[i])
    ensures forall i :: 0 <= i < |s| && !('A' <= s[i] <= 'Z') ==> r[i] == s[i]
  {
    seq(|s|, i requires 0 <= i < |s| => LowerChar(s[i]))
  }

  /** Lowercasing is idempotent, and a lowercase string is its own lowercase. */
  lemma ToLowerFixesLower(s: string)
    requires IsLower(s)
    ensures ToLower(s) == s
  {
  }

  lemma ToLowerIdempotent(s: string)
    ensures ToLower(ToLower(s)) == ToLower(s)
  {
    ToLowerFixesLower(ToLower(s));
  }

  /** `findOne({ email })`: exact match, no normalisation. */
  function FindByEmail(users: seq<User>, email: string): (r: Option<User>)
    ensures r.Some? ==> r.value in users && r.value.email == email
    ensures r.None? <==> forall u :: u in users ==> u.email != email
  {
    First(users, (u: User) => u.email == email)
  }

  /** A query with an upper-case letter never finds an email that was stored
      lowercased, even the same address. */
  lemma MixedCaseQueryMisses(users: seq<User>, query: string)
    requires forall u :: u in users ==> IsLower(u.email)
    requires !IsLower(query)
    ensures FindByEmail(users, query) == None
  {
  }

  /** The `select('-password')` projection. */
  function WithoutPassword(u: User): User {
    u.(password := None)
  }

  /** `findById(id).select('-password')`. */
  function FindUserById(users: seq<User>, userId: Id): (r: Option<User>)
    ensures r.Some? ==> r.value.id == userId && r.value.password == None
    ensures r.Some? ==> exists u :: u in users && r.value == WithoutPassword(u)
    ensures r.None? <==> forall u :: u in users ==> u.id != userId
  {
    match First(users, (u: User) => u.id == userId)
    case None => None
    case Some(u) => Some(WithoutPassword(u))
  }

  /** `find({ _id: { $in: userIds } })`, in store order. */
  function FindUserMinimalDetailsForIds(users: seq<User>, userIds: seq<Id>): (r: seq<User>)
    ensures forall u :: u in r <==> u in users && u.id in userIds
  {
    Filter(users, (u: User) => u.id in userIds)
  }

  /** Applying the supplied fields of a patch to one user. */
  function Patched(u: User, patch: UserPatch): User {
    User(u.id, u.email, u.password,
         patch.firstName.GetOr(u.firstName),
         patch.lastName.GetOr(u.lastName),
         patch.profilePhoto.GetOr(u.profilePhoto),
         if patch.isPrivate.Some? then Some(patch.isPrivate.value) else u.isPrivate)
  }

  predicate IdsUnique(users: seq<User>) {
    forall i, j :: 0 <= i < j < |users| ==> users[i].id != users[j].id
  }

  predicate EmailsUnique(users: seq<User>) {
    forall i, j :: 0 <= i < j < |users| ==> users[i].email != users[j].email
  }

  class UserRepository {
    var users: seq<User>

    /** The unique indexes on `_id` and `email`. */
    ghost predicate Valid()
      reads this
    {
      IdsUnique(users) && EmailsUnique(users)
    }

    constructor ()
      ensures Valid() && users == []
    {
      users := [];
    }

    /** `create({ ...dto, email: lowercase })`; the store assigns `newId`.
        A taken id or (lowercased) email is a duplicate-key error. */
    method CreateUser(dto: CreateUserDTO, newId: Id) returns (r: Result<User>)
      requires Valid()
      modifies this
      ensures Valid()
      ensures r.Ok? ==> r.value == User(newId, ToLower(dto.email), Some(dto.password),
                                        dto.firstName, dto.lastName, None, None)
      ensures r.Ok? ==> users == old(users) + [r.value]
      ensures r.Err? ==> users == old(users)
      ensures r.Err? <==> (exists u :: u in old(users) && u.id == newId)
                          || (exists u :: u in old(users) && u.email == ToLower(dto.email))
    {
      var user := User(newId, ToLower(dto.email), Some(dto.password), dto.firstName, dto.lastName, None, None);
      if FirstIndex(users, (u: User) => u.id == newId).Some? {
        return Err(DuplicateKey("_id"));
      }
      if FirstIndex(users, (u: User) => u.email == user.email).Some? {
        return Err(DuplicateKey("email"));
      }
      users := users + [user];
      r := Ok(user);
    }

    /** `updateOne({ email }, { $set: patch })`; `matched` is whether a user
        had that email. */
    method UpdateUserByEmail(email: string, patch: UserPatch) returns (matched: bool)
      requires Valid()
      modifies this
      ensures Valid()
      ensures matched <==> exists u :: u in old(users) && u.email == email
      ensures |users| == |old(users)|
      ensures forall i :: 0 <= i < |users| ==>
        users[i] == if old(users)[i].email == email then Patched(old(users)[i], patch) else old(users)[i]
    {
      var k := FirstIndex(users, (u: User) => u.email == email);
      matched := k.Some?;
      if matched {
        users := users[k.value := Patched(users[k.value], patch)];
      }
    }

    /** `find()`: the branch without a search string. */
    function FetchUsers(): (r: seq<User>)
      reads this
      ensures |r| == |users| && forall u :: u in users ==> u in r
    {
      users
    }

    /** `findOneAndUpdate({ _id }, { $set: { isPrivate } }, { new: true })
        .select('-password')`. */
    method UpdatePrivacySettingsForUser(isPrivate: bool, userId: Id) returns (r: Option<User>)
      requires Valid()
      modifies this
      ensures Valid()
      ensures r.None? <==> forall u :: u in old(users) ==> u.id != userId
      ensures r.Some? ==> r.value.id == userId && r.value.isPrivate == Some(isPrivate) && r.value.password == None
      ensures |users| == |old(users)|
      ensures forall i :: 0 <= i < |users| ==>
        users[i] == if old(users)[i].id == userId then old(users)[i].(isPrivate := Some(isPrivate)) else old(users)[i]
      ensures r.Some? ==> exists u :: u in users && r.value == WithoutPassword(u)
    {
      var k := FirstIndex(users, (u: User) => u.id == userId);
      if k.None? {
        return None;
      }
      var updated := users[k.value].(isPrivate := Some(isPrivate));
      users := users[k.value := updated];
      r := Some(WithoutPassword(updated));
    }
  }
}
