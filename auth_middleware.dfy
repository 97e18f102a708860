/**
 * The two request guards. `authenticate` takes the token from the
 * Authorization header, verifies it, loads the user it names (without the
 * password) and attaches that user to the request; every failure answers 401.
 * `authorize(...roles)` answers 401 when no user is attached and 403 when the
 * user's role is not among the allowed ones. Token verification is a
 * parameter: `verify(token)` is the decoded user id, or None when
 * verification fails or throws.
 */
module AuthMiddleware {
  import opened Wrappers
  import opened Text
  import opened Types

  const BearerPrefix: string := "Bearer "

  /** `req.header('Authorization')?.replace('Bearer ', '')`: only the first occurrence goes, wherever it is. */
  function ExtractToken(header: Option<string>): Option<string> {
    if header.None? then None else Some(ReplaceFirst(header.value, BearerPrefix, ""))
  }

  /** A header of the form `Bearer <t>` yields exactly `t`. */
  lemma BearerHeaderYieldsToken(t: string)
    ensures ExtractToken(Some(BearerPrefix + t)) == Some(t)
  {
    var h := BearerPrefix + t;
    assert OccursAt(h, BearerPrefix, 0) by { assert h[..|BearerPrefix|] == BearerPrefix; }
    assert IndexOf(h, BearerPrefix) == Some(0);
    assert h[..0] + "" + h[|BearerPrefix|..] == t;
  }

  /** Without `Bearer ` anywhere in it, the header is taken whole as the token. */
  lemma HeaderWithoutBearerIsToken(h: string)
    requires forall i :: !OccursAt(h, BearerPrefix, i)
    ensures ExtractToken(Some(h)) == Some(h)
  {
  }

  /** An occurrence later in the header is removed too: `xBearer abc` yields `xabc`. */
  lemma InnerBearerIsRemoved()
    ensures ExtractToken(Some("xBearer abc")) == Some("xabc")
  {
    var h := "xBearer abc";
    assert !OccursAt(h, BearerPrefix, 0) by { assert h[0] != BearerPrefix[0]; }
    assert OccursAt(h, BearerPrefix, 1) by { assert h[1..8] == BearerPrefix; }
    assert IndexOf(h, BearerPrefix) == Some(1) by {
      assert IndexOfFrom(h, BearerPrefix, 0) == IndexOfFrom(h, BearerPrefix, 1);
    }
    assert h[..1] + "" + h[8..] == "xabc";
  }

  datatype Decision = Continue(user: Principal) | Reject(status: int, message: string)

  function AuthenticateDecision(header: Option<string>, verify: string -> Option<UserId>, users: map<UserId, User>)
    : (d: Decision)
    ensures d.Reject? ==> d.status == 401
  {
    var token := ExtractToken(header);
    if token.None? || token.value == "" then
      Reject(401, "Access denied. No token provided.")
    else
      match verify(token.value)
      case None => Reject(401, "Caught Invalid token.")
      case Some(id) =>
        if id !in users then Reject(401, " Invalid token.")
        else Continue(WithoutPassword(users[id]))
  }

  /**
   * The request goes on exactly when a non-empty token verifies to the id of
   * a stored user, and then carries that user without the password; a
   * missing or empty token is refused before verification is attempted.
   */
  lemma AuthenticateOutcomes(header: Option<string>, verify: string -> Option<UserId>, users: map<UserId, User>)
    ensures var d := AuthenticateDecision(header, verify, users);
            var token := ExtractToken(header);
            && (token.None? || token.value == "" ==> d == Reject(401, "Access denied. No token provided."))
            && (d.Continue? <==>
                  token.Some? && token.value != "" && verify(token.value).Some? && verify(token.value).value in users)
            && (d.Continue? ==> d.user == WithoutPassword(users[verify(token.value).value]))
  {
  }

  /**
   * A token issued for a stored user, sent as `Bearer <token>`, is accepted
   * and attaches that user, given that verification undoes signing.
   */
  lemma IssuedTokenAuthenticates(id: UserId, users: map<UserId, User>, sign: UserId -> string, verify: string -> Option<UserId>)
    requires forall i: UserId :: verify(sign(i)) == Some(i)
    requires sign(id) != ""
    requires id in users
    ensures AuthenticateDecision(Some(BearerPrefix + sign(id)), verify, users) == Continue(WithoutPassword(users[id]))
  {
    BearerHeaderYieldsToken(sign(id));
  }

  datatype Authorization = Allowed | Denied(status: int, message: string)

  /** `authorize(...roles)`: no user is 401, checked before any role test; a role outside `roles` is 403. */
  function AuthorizeDecision(roles: seq<Role>, user: Option<Principal>): (a: Authorization)
    ensures user.None? ==> a.Denied? && a.status == 401
    ensures user.Some? ==> (a.Denied? <==> user.value.role !in roles)
    ensures user.Some? && a.Denied? ==> a.status == 403
  {
    if user.None? then Denied(401, "Access denied. Please Authenticate yourself first.")
    else if user.value.role !in roles then Denied(403, "Access denied. Insufficient permissions to access this resource.")
    else Allowed
  }

  /**
   * A request together with its response as far as the guards touch them:
   * the attached user, the status and message once sent, and how many times
   * `next` was called.
   */
  class Exchange {
    var user: Option<Principal>
    var status: Option<int>
    var message: string
    var nextCalls: nat

    constructor ()
      ensures user.None? && status.None? && nextCalls == 0
    {
      user := None;
      status := None;
      message := "";
      nextCalls := 0;
    }

    /** `authenticate`: on success attach the user and call `next` once; otherwise send 401 and stop. */
    method Authenticate(header: Option<string>, verify: string -> Option<UserId>, users: map<UserId, User>)
      modifies this
      ensures var d := AuthenticateDecision(header, verify, users);
              if d.Continue? then
                user == Some(d.user) && nextCalls == old(nextCalls) + 1 && status == old(status)
                && message == old(message)
              else
                status == Some(401) && message == d.message && user == old(user) && nextCalls == old(nextCalls)
    {
      var d := AuthenticateDecision(header, verify, users);
      match d
      case Continue(u) =>
        user := Some(u);
        nextCalls := nextCalls + 1;
      case Reject(code, msg) =>
        status := Some(code);
        message := msg;
    }

    /** `authorize(...roles)`: call `next` once when allowed, otherwise send 401 or 403 and stop. */
    method Authorize(roles: seq<Role>)
      modifies this
      ensures user == old(user)
      ensures var a := AuthorizeDecision(roles, old(user));
              if a.Allowed? then
                nextCalls == old(nextCalls) + 1 && status == old(status) && message == old(message)
              else
                status == Some(a.status) && message == a.message && nextCalls == old(nextCalls)
    {
      var a := AuthorizeDecision(roles, user);
      match a
      case Allowed =>
        nextCalls := nextCalls + 1;
      case Denied(code, msg) =>
        status := Some(code);
        message := msg;
    }
  }
}
