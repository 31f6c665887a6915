/**
 * `protectRoute`: the guard in front of `/onboarding` and `/me`. It reads
 * the `jwt` cookie, verifies it with the token verifier (the parameter
 * `verify`, `None` when `jwt.verify` throws), looks the user up and either
 * answers 401 or stores the user, password stripped, in `req.user` and
 * passes control on.
 */
module AuthMiddleware {
  import opened Wrappers
  import opened Users
  import opened Http

  const MsgNoToken := "Unauthorized - No token provided"
  const MsgInvalidToken := "Invalid Token"
  const MsgUserGone := "Unauthorized - User not found"

  /** The Express request as the middleware sees it. */
  class Request {
    const cookies: map<string, string>
    var user: Option<PublicUser>

    constructor (cookies: map<string, string>)
      ensures this.cookies == cookies && user == None
    {
      this.cookies := cookies;
      user := None;
    }
  }

  /** What the middleware does: answer with a response, or call `next()` after setting `req.user`. */
  datatype Gate = Deny(response: Response) | Admit(user: PublicUser)

  /** `req.cookies.jwt`. */
  function TokenOf(cookies: map<string, string>): (token: Option<string>) {
    if SessionCookie in cookies then Some(cookies[SessionCookie]) else None
  }

  function GateSpec(cookies: map<string, string>, users: map<UserId, User>,
                    verify: string -> Option<UserId>): (g: Gate)
  {
    var token := TokenOf(cookies);
    if Falsy(token) then Deny(Fail(401, MsgNoToken))
    else match verify(token.value)
      case None => Deny(Fail(401, MsgInvalidToken))
      case Some(id) =>
        if id !in users then Deny(Fail(401, MsgUserGone))
        else Admit(WithoutPassword(users[id]))
  }

  method ProtectRoute(req: Request, store: UserStore, verify: string -> Option<UserId>) returns (g: Gate)
    requires store.Valid()
    modifies req`user
    ensures g == GateSpec(req.cookies, store.users, verify)
    ensures g.Admit? ==> req.user == Some(g.user)
    ensures g.Deny? ==> req.user == old(req.user)
  {
    var token := TokenOf(req.cookies);
    if Falsy(token) {
      return Deny(Fail(401, MsgNoToken));
    }
    var decoded := verify(token.value);
    if decoded.None? {
      return Deny(Fail(401, MsgInvalidToken));
    }
    var found := store.FindById(decoded.value);
    if found.None? {
      return Deny(Fail(401, MsgUserGone));
    }
    var user := WithoutPassword(found.value);
    req.user := Some(user);
    g := Admit(user);   // next()
  }

  /**
   * The four outcomes: no token, a token the verifier rejects, a verified
   * id with no record, and admission of exactly the record of the decoded
   * id without its password. Every denial is a 401.
   */
  lemma GateOutcomes(cookies: map<string, string>, users: map<UserId, User>, verify: string -> Option<UserId>)
    requires forall id :: id in users ==> users[id].id == id
    ensures var g := GateSpec(cookies, users, verify);
      && (Falsy(TokenOf(cookies)) <==> g == Deny(Fail(401, MsgNoToken)))
      && (!Falsy(TokenOf(cookies)) && verify(TokenOf(cookies).value).None? <==> g == Deny(Fail(401, MsgInvalidToken)))
      && (g == Deny(Fail(401, MsgUserGone)) <==>
            && !Falsy(TokenOf(cookies)) && verify(TokenOf(cookies).value).Some?
            && verify(TokenOf(cookies).value).value !in users)
      && (g.Deny? ==> g.response.status == 401)
      && (g.Admit? <==>
            && !Falsy(TokenOf(cookies)) && verify(TokenOf(cookies).value).Some?
            && verify(TokenOf(cookies).value).value in users)
      && (g.Admit? ==> var id := verify(TokenOf(cookies).value).value;
            g.user == WithoutPassword(users[id]) && g.user.id == id)
  {
  }

  /** Without a token, or with one the verifier rejects, the store is never consulted. */
  lemma GateRejectsBeforeLookup(cookies: map<string, string>, users1: map<UserId, User>,
                                users2: map<UserId, User>, verify: string -> Option<UserId>)
    requires Falsy(TokenOf(cookies)) || verify(TokenOf(cookies).value).None?
    ensures GateSpec(cookies, users1, verify) == GateSpec(cookies, users2, verify)
  {
  }
}
