/**
 * The user records the authentication handlers read and write, and the
 * store that holds them (the Mongoose `User` model the controllers call:
 * `findOne`, `findById`, `create`, `findByIdAndUpdate`).
 */
module Users {
  import opened Wrappers

  /** Opaque record identifier (a MongoDB ObjectId); only its freshness matters. */
  type UserId = nat

  /**
   * A stored user. `password` is whatever the store keeps for the secret;
   * hashing is abstracted into the password oracle of the login handler.
   * Profile attributes that signup does not set are absent (`None`).
   */
  datatype User = User(
    id: UserId,
    fullName: string,
    email: string,
    password: string,
    profilePic: string,
    bio: Option<string>,
    nativeLanguage: Option<string>,
    learningLanguage: Option<string>,
    location: Option<string>,
    isOnboarded: bool)

  /** A user as `findById(..).select("-password")` returns it: every field but the secret. */
  datatype PublicUser = PublicUser(
    id: UserId,
    fullName: string,
    email: string,
    profilePic: string,
    bio: Option<string>,
    nativeLanguage: Option<string>,
    learningLanguage: Option<string>,
    location: Option<string>,
    isOnboarded: bool)

  function WithoutPassword(u: User): (p: PublicUser)
    ensures p.id == u.id && p.fullName == u.fullName && p.email == u.email
    ensures p.profilePic == u.profilePic && p.bio == u.bio && p.location == u.location
    ensures p.nativeLanguage == u.nativeLanguage && p.learningLanguage == u.learningLanguage
    ensures p.isOnboarded == u.isOnboarded
  {
    PublicUser(u.id, u.fullName, u.email, u.profilePic, u.bio,
               u.nativeLanguage, u.learningLanguage, u.location, u.isOnboarded)
  }

  /** The record `User.create({fullName, email, password, profilePic})` makes. */
  function NewAccount(id: UserId, fullName: string, email: string, password: string, profilePic: string): (u: User)
  {
    User(id, fullName, email, password, profilePic, None, None, None, None, false)
  }

  /**
   * An update document: every schema field the request body may carry
   * (`None` = key absent). Present keys overwrite, absent keys keep.
   */
  datatype Patch = Patch(
    fullName: Option<string>,
    email: Option<string>,
    password: Option<string>,
    profilePic: Option<string>,
    bio: Option<string>,
    nativeLanguage: Option<string>,
    learningLanguage: Option<string>,
    location: Option<string>,
    isOnboarded: Option<bool>)

  function Pick<T>(field: Option<T>, current: T): (v: T) {
    if field.Some? then field.value else current
  }

  function PickOpt<T>(field: Option<T>, current: Option<T>): (v: Option<T>) {
    if field.Some? then field else current
  }

  /** The record after `findByIdAndUpdate(id, p)`: each present key of `p` overwrites its field. */
  function ApplyPatch(u: User, p: Patch): (r: User)
    ensures r.id == u.id
  {
    User(u.id,
         Pick(p.fullName, u.fullName),
         Pick(p.email, u.email),
         Pick(p.password, u.password),
         Pick(p.profilePic, u.profilePic),
         PickOpt(p.bio, u.bio),
         PickOpt(p.nativeLanguage, u.nativeLanguage),
         PickOpt(p.learningLanguage, u.learningLanguage),
         PickOpt(p.location, u.location),
         Pick(p.isOnboarded, u.isOnboarded))
  }

  /** Applying the same update twice leaves the record as applying it once. */
  lemma ApplyPatchIdempotent(u: User, p: Patch)
    ensures ApplyPatch(ApplyPatch(u, p), p) == ApplyPatch(u, p)
  {
  }

  ghost predicate EmailTaken(users: map<UserId, User>, email: string) {
    exists id :: id in users && users[id].email == email
  }

  ghost predicate EmailTakenByOther(users: map<UserId, User>, email: string, self: UserId) {
    exists id :: id in users && id != self && users[id].email == email
  }

  ghost predicate EmailsUnique(users: map<UserId, User>) {
    forall a, b :: a in users && b in users && users[a].email == users[b].email ==> a == b
  }

  /** `User.findOne({ email })`: some record with that email, if there is one. */
  ghost function FindByEmail(users: map<UserId, User>, email: string): (r: Option<User>)
    ensures r.Some? <==> EmailTaken(users, email)
    ensures r.Some? ==> r.value.email == email && r.value in users.Values
  {
    if EmailTaken(users, email) then
      var id :| id in users && users[id].email == email; Some(users[id])
    else None
  }

  /** With unique emails, `findOne({ email })` returns exactly the record that owns the email. */
  lemma FindByEmailIsOwner(users: map<UserId, User>, id: UserId)
    requires EmailsUnique(users) && id in users
    ensures FindByEmail(users, users[id].email) == Some(users[id])
  {
  }

  /** Adding a record whose email nobody has keeps the emails unique. */
  lemma InsertKeepsEmailsUnique(users: map<UserId, User>, u: User)
    requires EmailsUnique(users) && u.id !in users && !EmailTaken(users, u.email)
    ensures EmailsUnique(users[u.id := u])
  {
  }

  /** The outcome of `findByIdAndUpdate(id, p, { new: true })` under a unique email index. */
  datatype UpdateResult = NoSuchUser | DuplicateKey | Updated(user: User)

  ghost function UpdateById(users: map<UserId, User>, id: UserId, p: Patch): (r: UpdateResult)
    ensures r.NoSuchUser? <==> id !in users
    ensures r.DuplicateKey? <==> id in users && EmailTakenByOther(users, ApplyPatch(users[id], p).email, id)
    ensures r.Updated? ==> id in users && r.user == ApplyPatch(users[id], p)
  {
    if id !in users then NoSuchUser
    else if EmailTakenByOther(users, ApplyPatch(users[id], p).email, id) then DuplicateKey
    else Updated(ApplyPatch(users[id], p))
  }

  /**
   * The store's consistency: every record is filed under its own id, ids
   * below `nextId` are the ones handed out, and `byEmail` indexes exactly
   * the stored emails.
   */
  ghost predicate Indexed(users: map<UserId, User>, byEmail: map<string, UserId>, nextId: UserId) {
    && (forall id :: id in users ==> users[id].id == id && id < nextId)
    && (forall id :: id in users ==> users[id].email in byEmail && byEmail[users[id].email] == id)
    && (forall e :: e in byEmail ==> byEmail[e] in users && users[byEmail[e]].email == e)
  }

  /** The email index makes emails unique. */
  lemma IndexedEmailsUnique(users: map<UserId, User>, byEmail: map<string, UserId>, nextId: UserId)
    requires Indexed(users, byEmail, nextId)
    ensures EmailsUnique(users)
  {
  }

  class UserStore {
    var users: map<UserId, User>
    var byEmail: map<string, UserId>
    var nextId: UserId

    ghost predicate Valid()
      reads this
    {
      Indexed(users, byEmail, nextId)
    }

    constructor ()
      ensures Valid() && users == map[]
    {
      users, byEmail, nextId := map[], map[], 0;
    }

    /** `User.findOne({ email })`. */
    method FindOne(email: string) returns (r: Option<User>)
      requires Valid()
      ensures r == FindByEmail(users, email)
    {
      if email in byEmail {
        var id := byEmail[email];
        IndexedEmailsUnique(users, byEmail, nextId);
        FindByEmailIsOwner(users, id);
        r := Some(users[id]);
      } else {
        assert !EmailTaken(users, email);
        r := None;
      }
    }

    /** `User.findById(id)`. */
    method FindById(id: UserId) returns (r: Option<User>)
      requires Valid()
      ensures r.Some? <==> id in users
      ensures r.Some? ==> r.value == users[id] && r.value.id == id
    {
      r := if id in users then Some(users[id]) else None;
    }

    /** `User.create(..)`: fails on a duplicate email (the unique index), else files a fresh record. */
    method Create(fullName: string, email: string, password: string, profilePic: string)
      returns (r: Option<User>)
      requires Valid()
      modifies this
      ensures Valid()
      ensures r.None? <==> EmailTaken(old(users), email)
      ensures r.None? ==> users == old(users)
      ensures r.Some? ==> && r.value.id !in old(users)
                          && r.value == NewAccount(r.value.id, fullName, email, password, profilePic)
                          && users == old(users)[r.value.id := r.value]
    {
      if email in byEmail {
        assert users[byEmail[email]].email == email;
        return None;
      }
      assert !EmailTaken(users, email);
      var u := NewAccount(nextId, fullName, email, password, profilePic);
      users := users[nextId := u];
      byEmail := byEmail[email := nextId];
      nextId := nextId + 1;
      r := Some(u);
    }

    /** `User.findByIdAndUpdate(id, p, { new: true })`. */
    method FindByIdAndUpdate(id: UserId, p: Patch) returns (r: UpdateResult)
      requires Valid()
      modifies this
      ensures Valid()
      ensures r == UpdateById(old(users), id, p)
      ensures users == if r.Updated? then old(users)[id := r.user] else old(users)
    {
      if id !in users {
        return NoSuchUser;
      }
      var u := ApplyPatch(users[id], p);
      if u.email in byEmail && byEmail[u.email] != id {
        assert users[byEmail[u.email]].email == u.email;
        return DuplicateKey;
      }
      assert !EmailTakenByOther(users, u.email, id);
      IndexedEmailsUnique(users, byEmail, nextId);
      var oldEmail := users[id].email;
      ghost var users0, byEmail0 := users, byEmail;
      users := users[id := u];
      byEmail := (byEmail - {oldEmail})[u.email := id];
      forall k | k in users
        ensures users[k].email in byEmail && byEmail[users[k].email] == k
      {
        if k != id {
          assert users0[k].email != oldEmail;
          assert users0[k].email != u.email;
        }
      }
      forall e | e in byEmail
        ensures byEmail[e] in users && users[byEmail[e]].email == e
      {
        if e != u.email {
          assert e in byEmail0 && e != oldEmail;
          assert byEmail0[e] != id;
        }
      }
      r := Updated(u);
    }
  }
}
