/** Properties that span several handlers: what one request leaves behind for the next. */
module AuthFlows {
  import opened Wrappers
  import opened Users
  import opened Http
  import opened AuthController
  import opened AuthMiddleware

  /**
   * After a successful signup that filed the record `u`, a login with the
   * same email finds `u`: it succeeds exactly when the password check
   * accepts the candidate for `u`'s stored secret, and otherwise fails
   * with the uniform 401.
   */
  lemma SignupThenLogin(users: map<UserId, User>, body: SignupBody, u: User, candidate: Option<string>,
                        env: Env, sign: UserId -> string, matches: (string, string) -> bool)
    requires EmailsUnique(users)
    requires SignupGuard(users, body).None?
    requires u.id !in users && u.email == body.email.value && u.password == body.password.value
    requires !Falsy(candidate)
    ensures var res := LoginSpec(users[u.id := u], LoginBody(body.email, candidate), env, sign, matches);
      if matches(candidate.value, u.password)
      then res == Response(200, WithUser(u), SessionCookieFor(u.id, env, sign))
      else res == Fail(401, MsgInvalidCredentials)
  {
    InsertKeepsEmailsUnique(users, u);
    FindByEmailIsOwner(users[u.id := u], u.id);
  }

  /**
   * The cookie a signup or login sets opens the gate for that user, given a
   * verifier that accepts what the signer issued for that id.
   */
  lemma SessionCookieAdmits(users: map<UserId, User>, id: UserId, env: Env,
                            sign: UserId -> string, verify: string -> Option<UserId>)
    requires id in users
    requires sign(id) != "" && verify(sign(id)) == Some(id)
    ensures var cookie := SessionCookieFor(id, env, sign);
      GateSpec(map[cookie.name := cookie.value], users, verify) == Admit(WithoutPassword(users[id]))
  {
  }

  /**
   * A request the gate admits belongs to a stored user, so a complete
   * onboarding body for it never meets the 404: it succeeds unless the new
   * email belongs to another record.
   */
  lemma AdmittedUserCanOnboard(cookies: map<string, string>, users: map<UserId, User>,
                               verify: string -> Option<UserId>, body: OnboardBody)
    requires forall id :: id in users ==> users[id].id == id
    requires GateSpec(cookies, users, verify).Admit?
    requires !OnboardIncomplete(body)
    ensures var id := GateSpec(cookies, users, verify).user.id;
      && id in users
      && OnboardSpec(users, id, body).0.status in {200, 500}
      && (OnboardSpec(users, id, body).0.status == 200 <==>
            !EmailTakenByOther(users, ApplyPatch(users[id], body).email, id))
  {
  }
}
