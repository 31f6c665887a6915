/**
 * The four handlers of the authentication controller: signup, login,
 * logout and onboarding. Each returns the response it sends; signup and
 * onboarding change the user store. Token signing and password checking
 * are the parameters `sign` and `matches`.
 */
module AuthController {
  import opened Wrappers
  import opened Users
  import opened Http
  import opened EmailFormat
  import opened Avatars

  /** Seven days in milliseconds. */
  const SessionMaxAge: nat := 7 * 24 * 60 * 60 * 1000
  const MinPasswordLength: nat := 6

  const MsgAllFields := "All fields are required"
  const MsgShortPassword := "Password should be at least 6 characters"
  const MsgInvalidEmail := "Invalid email format"
  const MsgUserExists := "User already exists"
  const MsgInvalidCredentials := "Invalid email or password"
  const MsgLoggedOut := "Logged out successfully"
  const MsgUserNotFound := "User not found"
  const MsgInternalError := "Internal Server Error"

  // ---------- session cookie ----------

  /**
   * The options `res.cookie("jwt", token, ..)` uses in signup and login:
   * the cookie lives seven days, is HTTP-only, and is cross-site
   * (`SameSite=None`) and `Secure` exactly in production, so a cross-site
   * cookie is always a secure one.
   */
  function SessionCookieOptions(env: Env): (o: CookieOptions)
    ensures o.maxAge == Some(604800000) && o.httpOnly
    ensures o.secure <==> IsProduction(env)
    ensures o.sameSite == "None" <==> IsProduction(env)
    ensures o.sameSite in {"None", "Lax"}
    ensures o.sameSite == "None" ==> o.secure
  {
    CookieOptions(Some(SessionMaxAge), true, if IsProduction(env) then "None" else "Lax", IsProduction(env))
  }

  /** The options `res.clearCookie("jwt", ..)` uses in logout: those of the set, without the lifetime. */
  function ClearCookieOptions(env: Env): (o: CookieOptions)
    ensures o == SessionCookieOptions(env).(maxAge := None)
  {
    CookieOptions(None, true, if IsProduction(env) then "None" else "Lax", IsProduction(env))
  }

  /** The session cookie set after signup or login for the user `id`. */
  function SessionCookieFor(id: UserId, env: Env, sign: UserId -> string): (c: CookieOp) {
    SetCookie(SessionCookie, sign(id), SessionCookieOptions(env))
  }

  // ---------- signup ----------

  datatype SignupBody = SignupBody(fullName: Option<string>, email: Option<string>, password: Option<string>)

  /** The guard chain of signup, in source order: the message of the first guard that fails. */
  ghost function SignupGuard(users: map<UserId, User>, body: SignupBody): (r: Option<string>)
    ensures r.Some? ==> r.value in {MsgAllFields, MsgShortPassword, MsgInvalidEmail, MsgUserExists}
    ensures r.None? ==>
              && !Falsy(body.fullName) && !Falsy(body.email) && !Falsy(body.password)
              && |body.password.value| >= 6 && MatchesEmailRegex(body.email.value)
              && !EmailTaken(users, body.email.value)
  {
    if Falsy(body.fullName) || Falsy(body.email) || Falsy(body.password) then Some(MsgAllFields)
    else if |body.password.value| < MinPasswordLength then Some(MsgShortPassword)
    else if !IsValidEmail(body.email.value) then Some(MsgInvalidEmail)
    else if EmailTaken(users, body.email.value) then Some(MsgUserExists)
    else None
  }

  /** Each guard fires exactly when every earlier guard passed and its own condition holds. */
  lemma SignupGuardOrder(users: map<UserId, User>, body: SignupBody)
    ensures SignupGuard(users, body) == Some(MsgAllFields) <==>
              Falsy(body.fullName) || Falsy(body.email) || Falsy(body.password)
    ensures SignupGuard(users, body) == Some(MsgShortPassword) <==>
              && !Falsy(body.fullName) && !Falsy(body.email) && !Falsy(body.password)
              && |body.password.value| < 6
    ensures SignupGuard(users, body) == Some(MsgInvalidEmail) <==>
              && !Falsy(body.fullName) && !Falsy(body.email) && !Falsy(body.password)
              && |body.password.value| >= 6 && !MatchesEmailRegex(body.email.value)
    ensures SignupGuard(users, body) == Some(MsgUserExists) <==>
              && !Falsy(body.fullName) && !Falsy(body.email) && !Falsy(body.password)
              && |body.password.value| >= 6 && MatchesEmailRegex(body.email.value)
              && EmailTaken(users, body.email.value)
    ensures SignupGuard(users, body).None? <==>
              && !Falsy(body.fullName) && !Falsy(body.email) && !Falsy(body.password)
              && |body.password.value| >= 6 && MatchesEmailRegex(body.email.value)
              && !EmailTaken(users, body.email.value)
  {
  }

  /**
   * `signup`: on a failed guard, 400 with that guard's message and the
   * store untouched; otherwise exactly one new record (fresh id, the given
   * name, email and password, a DiceBear avatar with seed 1..100), 201
   * with that record, and the session cookie for it.
   */
  method Signup(store: UserStore, body: SignupBody, env: Env, sign: UserId -> string) returns (res: Response)
    requires store.Valid()
    modifies store
    ensures store.Valid()
    ensures SignupGuard(old(store.users), body).Some? ==>
              && res == Fail(400, SignupGuard(old(store.users), body).value)
              && store.users == old(store.users)
    ensures SignupGuard(old(store.users), body).None? ==>
              && res.status == 201 && res.body.WithUser?
              && var u := res.body.user;
                 && u.id !in old(store.users)
                 && store.users == old(store.users)[u.id := u]
                 && u == NewAccount(u.id, body.fullName.value, body.email.value, body.password.value, u.profilePic)
                 && IsDefaultAvatar(u.profilePic)
                 && res.cookie == SessionCookieFor(u.id, env, sign)
  {
    if Falsy(body.fullName) || Falsy(body.email) || Falsy(body.password) {
      return Fail(400, MsgAllFields);
    }
    var fullName, email, password := body.fullName.value, body.email.value, body.password.value;
    if |password| < MinPasswordLength {
      return Fail(400, MsgShortPassword);
    }
    if !IsValidEmail(email) {
      return Fail(400, MsgInvalidEmail);
    }
    var existing := store.FindOne(email);
    if existing.Some? {
      return Fail(400, MsgUserExists);
    }
    // Math.floor(Math.random() * 100) + 1
    var n :| 1 <= n <= 100;
    var avatar := AvatarUrl(n);
    var created := store.Create(fullName, email, password, avatar);
    assert created.Some?;
    var u := created.value;
    // upsertStreamUser swallows its own errors: neither the store nor the response depends on it
    res := Response(201, WithUser(u), SessionCookieFor(u.id, env, sign));
  }

  // ---------- login ----------

  datatype LoginBody = LoginBody(email: Option<string>, password: Option<string>)

  /** `login`: 400 on a missing field, one and the same 401 for an unknown email or a wrong password, else 200. */
  ghost function LoginSpec(users: map<UserId, User>, body: LoginBody, env: Env,
                           sign: UserId -> string, matches: (string, string) -> bool): (res: Response)
  {
    if Falsy(body.email) || Falsy(body.password) then Fail(400, MsgAllFields)
    else match FindByEmail(users, body.email.value)
      case None => Fail(401, MsgInvalidCredentials)
      case Some(u) =>
        if !matches(body.password.value, u.password) then Fail(401, MsgInvalidCredentials)
        else Response(200, WithUser(u), SessionCookieFor(u.id, env, sign))
  }

  method Login(store: UserStore, body: LoginBody, env: Env,
               sign: UserId -> string, matches: (string, string) -> bool) returns (res: Response)
    requires store.Valid()
    ensures res == LoginSpec(store.users, body, env, sign, matches)
  {
    if Falsy(body.email) || Falsy(body.password) {
      return Fail(400, MsgAllFields);
    }
    var user := store.FindOne(body.email.value);
    if user.None? {
      return Fail(401, MsgInvalidCredentials);
    }
    var isPasswordCorrect := matches(body.password.value, user.value.password);
    if !isPasswordCorrect {
      return Fail(401, MsgInvalidCredentials);
    }
    res := Response(200, WithUser(user.value), SessionCookieFor(user.value.id, env, sign));
  }

  /**
   * Login succeeds exactly for a present email owned by a stored user whose
   * secret the password check accepts, and then answers with that very
   * record and its session cookie; every other request with both fields
   * gets the same 401, so the response does not tell an unknown email from
   * a wrong password.
   */
  lemma LoginOutcomes(users: map<UserId, User>, body: LoginBody, env: Env,
                      sign: UserId -> string, matches: (string, string) -> bool)
    requires EmailsUnique(users)
    ensures var res := LoginSpec(users, body, env, sign, matches);
      && (Falsy(body.email) || Falsy(body.password) ==> res == Fail(400, MsgAllFields))
      && (res.status == 200 <==>
            && !Falsy(body.email) && !Falsy(body.password)
            && exists id :: id in users && users[id].email == body.email.value
                           && matches(body.password.value, users[id].password))
      && (res.status == 200 ==>
            exists id :: && id in users && users[id].email == body.email.value
                         && matches(body.password.value, users[id].password)
                         && res == Response(200, WithUser(users[id]), SessionCookieFor(users[id].id, env, sign)))
      && (!Falsy(body.email) && !Falsy(body.password) && res.status != 200 ==> res == Fail(401, MsgInvalidCredentials))
  {
  }

  /** The 401 of an unknown email and the 401 of a wrong password are the same response. */
  lemma LoginFailuresIndistinguishable(users1: map<UserId, User>, users2: map<UserId, User>, body: LoginBody,
                                       env: Env, sign: UserId -> string, matches: (string, string) -> bool)
    requires !Falsy(body.email) && !Falsy(body.password)
    requires !EmailTaken(users1, body.email.value)
    requires FindByEmail(users2, body.email.value).Some?
    requires !matches(body.password.value, FindByEmail(users2, body.email.value).value.password)
    ensures LoginSpec(users1, body, env, sign, matches) == LoginSpec(users2, body, env, sign, matches)
    ensures LoginSpec(users1, body, env, sign, matches) == Fail(401, MsgInvalidCredentials)
  {
  }

  // ---------- logout ----------

  /** `logout`: 200 and the `jwt` cookie cleared with the attributes it was set with. */
  method Logout(env: Env) returns (res: Response)
    ensures res.status == 200 && res.body == Success(MsgLoggedOut)
    ensures res.cookie.ClearCookie? && res.cookie.name == SessionCookie
    ensures var setOpts, clear := SessionCookieOptions(env), res.cookie.options;
      clear.httpOnly == setOpts.httpOnly && clear.sameSite == setOpts.sameSite && clear.secure == setOpts.secure
  {
    res := Response(200, Success(MsgLoggedOut), ClearCookie(SessionCookie, ClearCookieOptions(env)));
  }

  // ---------- onboarding ----------

  /** The onboarding request body: any of the user schema's fields. */
  type OnboardBody = Patch

  predicate OnboardIncomplete(body: OnboardBody) {
    Falsy(body.fullName) || Falsy(body.nativeLanguage) || Falsy(body.learningLanguage) || Falsy(body.location)
  }

  /** `!field && "name"`: the name when the field is falsy, `false` otherwise. */
  function FlagIfMissing(field: Option<string>, name: string): Option<string> {
    if Falsy(field) then Some(name) else None
  }

  /** `Array.prototype.filter(Boolean)` over the flags: the non-empty names, in order. */
  function Truthy(flags: seq<Option<string>>): (names: seq<string>)
    ensures |names| <= |flags|
  {
    if flags == [] then []
    else
      var rest := Truthy(flags[1..]);
      if flags[0].Some? && flags[0].value != "" then [flags[0].value] + rest else rest
  }

  /** `filter(Boolean)` keeps exactly the non-empty names among the flags. */
  lemma {:induction false} TruthyMembers(flags: seq<Option<string>>, x: string)
    ensures x in Truthy(flags) <==> x != "" && Some(x) in flags
  {
    if flags != [] {
      TruthyMembers(flags[1..], x);
      assert Some(x) in flags <==> Some(x) == flags[0] || Some(x) in flags[1..];
    }
  }

  lemma {:induction false} TruthyAppend(xs: seq<Option<string>>, ys: seq<Option<string>>)
    ensures Truthy(xs + ys) == Truthy(xs) + Truthy(ys)
  {
    if xs != [] {
      assert (xs + ys)[1..] == xs[1..] + ys;
      TruthyAppend(xs[1..], ys);
    } else {
      assert xs + ys == ys;
    }
  }

  /** The `missingFields` array of the onboarding 400. */
  function MissingFieldList(body: OnboardBody): (names: seq<string>)
    ensures |names| <= |OnboardFieldNames|
  {
    Truthy([FlagIfMissing(body.fullName, "fullName"),
            FlagIfMissing(body.nativeLanguage, "nativeLanguage"),
            FlagIfMissing(body.learningLanguage, "learningLanguage"),
            FlagIfMissing(body.location, "location"),
            FlagIfMissing(body.bio, "bio")])
  }

  /** The five onboarding names are told apart by their ranks. */
  lemma FieldRanks()
    ensures FieldRank("fullName") == 0 && FieldRank("nativeLanguage") == 1
    ensures FieldRank("learningLanguage") == 2 && FieldRank("location") == 3 && FieldRank("bio") == 4
  {
  }

  /** Position of an onboarding field name in the order the source lists them. */
  function FieldRank(name: string): (rank: nat) {
    if name == "fullName" then 0
    else if name == "nativeLanguage" then 1
    else if name == "learningLanguage" then 2
    else if name == "location" then 3
    else if name == "bio" then 4
    else 5
  }

  function FieldNamed(body: OnboardBody, name: string): (field: Option<string>) {
    if name == "fullName" then body.fullName
    else if name == "nativeLanguage" then body.nativeLanguage
    else if name == "learningLanguage" then body.learningLanguage
    else if name == "location" then body.location
    else body.bio
  }

  const OnboardFieldNames: seq<string> := ["fullName", "nativeLanguage", "learningLanguage", "location", "bio"]

  function Optional(present: bool, name: string): (names: seq<string>) {
    if present then [name] else []
  }

  predicate StrictlyRanked(names: seq<string>) {
    forall i, j :: 0 <= i < j < |names| ==> FieldRank(names[i]) < FieldRank(names[j])
  }

  lemma PrependRanked(present: bool, name: string, rest: seq<string>)
    requires StrictlyRanked(rest)
    requires forall x :: x in rest ==> FieldRank(name) < FieldRank(x)
    ensures StrictlyRanked(Optional(present, name) + rest)
    ensures forall x :: x in Optional(present, name) + rest ==> FieldRank(name) <= FieldRank(x)
  {
  }

  /** `missingFields` written out: one optional entry per field, in source order. */
  lemma MissingFieldListSpelled(body: OnboardBody)
    ensures MissingFieldList(body) ==
              Optional(Falsy(body.fullName), "fullName")
              + (Optional(Falsy(body.nativeLanguage), "nativeLanguage")
              + (Optional(Falsy(body.learningLanguage), "learningLanguage")
              + (Optional(Falsy(body.location), "location")
              + Optional(Falsy(body.bio), "bio"))))
  {
    var f0 := FlagIfMissing(body.fullName, "fullName");
    var f1 := FlagIfMissing(body.nativeLanguage, "nativeLanguage");
    var f2 := FlagIfMissing(body.learningLanguage, "learningLanguage");
    var f3 := FlagIfMissing(body.location, "location");
    var f4 := FlagIfMissing(body.bio, "bio");
    assert [f0, f1, f2, f3, f4] == [f0] + ([f1] + ([f2] + ([f3] + [f4])));
    TruthyAppend([f3], [f4]);
    TruthyAppend([f2], [f3] + [f4]);
    TruthyAppend([f1], [f2] + ([f3] + [f4]));
    TruthyAppend([f0], [f1] + ([f2] + ([f3] + [f4])));
    TruthyFlag(body.fullName, "fullName");
    TruthyFlag(body.nativeLanguage, "nativeLanguage");
    TruthyFlag(body.learningLanguage, "learningLanguage");
    TruthyFlag(body.location, "location");
    TruthyFlag(body.bio, "bio");
  }

  lemma TruthyFlag(field: Option<string>, name: string)
    requires name != ""
    ensures Truthy([FlagIfMissing(field, name)]) == Optional(Falsy(field), name)
  {
  }

  /**
   * `missingFields` lists exactly the onboarding fields (bio included) that
   * are absent or empty, in the order fullName, nativeLanguage,
   * learningLanguage, location, bio, each at most once.
   */
  lemma MissingFieldListExact(body: OnboardBody)
    ensures forall name :: name in MissingFieldList(body) <==>
              name in OnboardFieldNames && Falsy(FieldNamed(body, name))
    ensures StrictlyRanked(MissingFieldList(body))
  {
    MissingFieldListSpelled(body);
    var t4 := Optional(Falsy(body.bio), "bio");
    var t3 := Optional(Falsy(body.location), "location") + t4;
    var t2 := Optional(Falsy(body.learningLanguage), "learningLanguage") + t3;
    var t1 := Optional(Falsy(body.nativeLanguage), "nativeLanguage") + t2;
    var t0 := Optional(Falsy(body.fullName), "fullName") + t1;
    forall name
      ensures name in t0 <==> name in OnboardFieldNames && Falsy(FieldNamed(body, name))
    {
      OptionalMember(Falsy(body.bio), "bio", [], name);
      OptionalMember(Falsy(body.location), "location", t4, name);
      OptionalMember(Falsy(body.learningLanguage), "learningLanguage", t3, name);
      OptionalMember(Falsy(body.nativeLanguage), "nativeLanguage", t2, name);
      OptionalMember(Falsy(body.fullName), "fullName", t1, name);
      assert t4 == Optional(Falsy(body.bio), "bio") + [];
    }
    FieldRanks();
    PrependRanked(Falsy(body.location), "location", t4);
    PrependRanked(Falsy(body.learningLanguage), "learningLanguage", t3);
    PrependRanked(Falsy(body.nativeLanguage), "nativeLanguage", t2);
    PrependRanked(Falsy(body.fullName), "fullName", t1);
  }

  lemma OptionalMember(present: bool, name: string, rest: seq<string>, x: string)
    ensures x in Optional(present, name) + rest <==> (present && x == name) || x in rest
  {
  }

  /** A body carrying only `fullName` is told that the other four fields are missing, bio among them. */
  lemma MissingFieldsWithOnlyFullName(name: string)
    requires name != ""
    ensures MissingFieldList(Patch(Some(name), None, None, None, None, None, None, None, None))
              == ["nativeLanguage", "learningLanguage", "location", "bio"]
  {
    var body := Patch(Some(name), None, None, None, None, None, None, None, None);
    MissingFieldListSpelled(body);
  }

  /** The onboarding 400 always names at least one field. */
  lemma IncompleteOnboardNamesAField(body: OnboardBody)
    requires OnboardIncomplete(body)
    ensures MissingFieldList(body) != []
  {
    MissingFieldListExact(body);
    if Falsy(body.fullName) {
      assert "fullName" in MissingFieldList(body);
    } else if Falsy(body.nativeLanguage) {
      assert "nativeLanguage" in MissingFieldList(body);
    } else if Falsy(body.learningLanguage) {
      assert "learningLanguage" in MissingFieldList(body);
    } else {
      assert "location" in MissingFieldList(body);
    }
  }

  /** The update document `{ ...req.body, isOnboarded: true }`. */
  function OnboardPatch(body: OnboardBody): (p: Patch) {
    body.(isOnboarded := Some(true))
  }

  /** The onboarded record: the old one overlaid with the body, then the flag forced on. */
  lemma OnboardPatchForcesFlag(u: User, body: OnboardBody)
    ensures ApplyPatch(u, OnboardPatch(body)) == ApplyPatch(u, body).(isOnboarded := true)
    ensures ApplyPatch(u, OnboardPatch(body)).isOnboarded
  {
  }

  /** `onboard` for the authenticated `userId`: the response and the new store. */
  ghost function OnboardSpec(users: map<UserId, User>, userId: UserId, body: OnboardBody): (r: (Response, map<UserId, User>)) {
    if OnboardIncomplete(body) then
      (Response(400, MissingFields(MsgAllFields, MissingFieldList(body)), NoCookie), users)
    else match UpdateById(users, userId, OnboardPatch(body))
      case NoSuchUser => (Fail(404, MsgUserNotFound), users)
      case DuplicateKey => (Fail(500, MsgInternalError), users)
      case Updated(u) => (Response(200, WithUser(u), NoCookie), users[userId := u])
  }

  method Onboard(store: UserStore, userId: UserId, body: OnboardBody) returns (res: Response)
    requires store.Valid()
    modifies store
    ensures store.Valid()
    ensures (res, store.users) == OnboardSpec(old(store.users), userId, body)
  {
    if Falsy(body.fullName) || Falsy(body.nativeLanguage) || Falsy(body.learningLanguage) || Falsy(body.location) {
      return Response(400, MissingFields(MsgAllFields, MissingFieldList(body)), NoCookie);
    }
    var updated := store.FindByIdAndUpdate(userId, OnboardPatch(body));
    match updated
    case NoSuchUser =>
      res := Fail(404, MsgUserNotFound);
    case DuplicateKey =>
      // the unique email index rejects the write; the catch block answers 500
      res := Fail(500, MsgInternalError);
    case Updated(u) =>
      // upsertStreamUser swallows its own errors
      res := Response(200, WithUser(u), NoCookie);
  }

  /**
   * Onboarding answers 400 exactly when one of fullName, nativeLanguage,
   * learningLanguage, location is missing (bio never triggers it), 404 for
   * an id not in the store, 500 when the new email belongs to another
   * record; on every non-200 answer the store is unchanged,
   * and on 200 only the caller's record changes: it becomes the old record
   * overlaid with the body, with `isOnboarded` true whatever the body said.
   */
  lemma OnboardOutcomes(users: map<UserId, User>, userId: UserId, body: OnboardBody)
    ensures var (res, users') := OnboardSpec(users, userId, body);
      && (res.status == 400 <==> OnboardIncomplete(body))
      && (res.status == 404 <==> !OnboardIncomplete(body) && userId !in users)
      && (res.status == 500 <==>
            && !OnboardIncomplete(body) && userId in users
            && EmailTakenByOther(users, ApplyPatch(users[userId], body).email, userId))
      && (res.status == 200 <==>
            && !OnboardIncomplete(body) && userId in users
            && !EmailTakenByOther(users, ApplyPatch(users[userId], body).email, userId))
      && res.status in {200, 400, 404, 500}
      && (res.status != 200 ==> users' == users)
      && (res.status == 200 ==>
            && userId in users
            && users' == users[userId := ApplyPatch(users[userId], body).(isOnboarded := true)]
            && users'[userId].isOnboarded
            && res.body == WithUser(users'[userId]))
  {
  }

  /** Sending the same onboarding body again leaves the store as the first success left it. */
  lemma OnboardIdempotent(users: map<UserId, User>, userId: UserId, body: OnboardBody)
    requires OnboardSpec(users, userId, body).0.status == 200
    ensures var users' := OnboardSpec(users, userId, body).1;
      OnboardSpec(users', userId, body) == OnboardSpec(users, userId, body)
  {
    var u := ApplyPatch(users[userId], OnboardPatch(body));
    var users' := users[userId := u];
    ApplyPatchIdempotent(users[userId], OnboardPatch(body));
    assert ApplyPatch(users'[userId], OnboardPatch(body)) == u;
    assert !EmailTakenByOther(users, u.email, userId);
    assert users'[userId := u] == users';
  }
}
