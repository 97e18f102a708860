/**
 * Registration, login and the profile lookup over the user collection. The
 * collection is a map from id to user plus the unique index on the
 * (lower-cased) email; token signing and password hashing and comparison are
 * parameters.
 */
module AuthController {
  import opened Wrappers
  import opened Text
  import opened Types
  import opened UserSchema

  datatype AuthError =
    | UserExists
      /** `UserModel.create` refused the document; the error handler answers. */
    | AccountRejected
    | MissingCredentials
    | InvalidCredentials
    | WrongPassword
      /** `bcrypt.compare` rejected a user loaded without its password; the error handler answers. */
    | PasswordNotLoaded
  {
    function Status(): Option<int> {
      match this
      case UserExists => Some(401)
      case AccountRejected => None
      case MissingCredentials => Some(400)
      case InvalidCredentials => Some(401)
      case WrongPassword => Some(401)
      case PasswordNotLoaded => None
    }

    function Message(): string {
      match this
      case UserExists => "User already exists"
      case AccountRejected => "User validation failed"
      case MissingCredentials => "Email and password are required"
      case InvalidCredentials => "Invalid credentials"
      case WrongPassword => "Password is incorrect"
      case PasswordNotLoaded => "Illegal arguments: string, undefined"
    }
  }

  /** The body of a successful register or login response: the public fields and the token. */
  datatype Session = Session(user: PublicUser, token: string)

  /** The unique email index agrees with the users: each stored email names exactly its user. */
  predicate Indexed(users: map<UserId, User>, emailIndex: map<string, UserId>) {
    && (forall e :: e in emailIndex ==> emailIndex[e] in users && users[emailIndex[e]].email == e)
    && (forall id :: id in users ==> users[id].email in emailIndex && emailIndex[users[id].email] == id)
  }

  /** Storing a user under a fresh id and a fresh email keeps the index in step. */
  lemma IndexAdd(users: map<UserId, User>, emailIndex: map<string, UserId>, id: UserId, u: User)
    requires Indexed(users, emailIndex)
    requires id !in users && u.email !in emailIndex
    ensures Indexed(users[id := u], emailIndex[u.email := id])
  {
    var users' := users[id := u];
    var index' := emailIndex[u.email := id];
    forall e | e in index' ensures index'[e] in users' && users'[index'[e]].email == e {
      if e != u.email {
        assert emailIndex[e] in users && emailIndex[e] != id;
      }
    }
  }

  /** The email index makes emails unique. */
  lemma IndexedEmailsUnique(users: map<UserId, User>, emailIndex: map<string, UserId>, a: UserId, b: UserId)
    requires Indexed(users, emailIndex)
    requires a in users && b in users && users[a].email == users[b].email
    ensures a == b
  {
  }

  /** `!email || !password`: an absent or empty field. */
  predicate Missing(s: Option<string>) {
    s.None? || s.value == ""
  }

  /**
   * `login`: both fields are required before any lookup; the email is
   * lower-cased by the schema before it is looked up; an unknown email and a
   * wrong password are both 401, with different messages; otherwise the
   * public fields of the user and a token signed for its id.
   */
  function LoginOutcome(
    users: map<UserId, User>, emailIndex: map<string, UserId>, email: Option<string>, password: Option<string>,
    compare: (string, string) -> bool, sign: UserId -> string): (r: Result<Session, AuthError>)
    requires Indexed(users, emailIndex)
    ensures Missing(email) || Missing(password) <==> r == Failure(MissingCredentials)
    ensures r == Failure(InvalidCredentials) <==>
              !Missing(email) && !Missing(password) && Lower(email.value) !in emailIndex
    ensures r == Failure(WrongPassword) <==>
              && !Missing(email) && !Missing(password) && Lower(email.value) in emailIndex
              && !compare(password.value, users[emailIndex[Lower(email.value)]].password)
    ensures r.Success? ==>
              var u := users[emailIndex[Lower(email.value)]];
              && u.email == Lower(email.value)
              && compare(password.value, u.password)
              && r.value == Session(PublicView(u), sign(u.id))
  {
    if Missing(email) || Missing(password) then Failure(MissingCredentials)
    else
      var key := Lower(email.value);
      if key !in emailIndex then Failure(InvalidCredentials)
      else
        var u := users[emailIndex[key]];
        if !compare(password.value, u.password) then Failure(WrongPassword)
        else Success(Session(PublicView(u), sign(u.id)))
  }

  /**
   * A user just stored under a fresh email can log in with that email in any
   * ASCII case and the password whose hash was stored, and the session names
   * that user.
   */
  lemma RegisteredUserCanLogIn(
    users: map<UserId, User>, emailIndex: map<string, UserId>, id: UserId, u: User,
    email: string, password: string, compare: (string, string) -> bool, sign: UserId -> string)
    requires Indexed(users, emailIndex)
    requires id !in users && u.id == id && u.email == Lower(email) && u.email !in emailIndex
    requires email != "" && password != "" && compare(password, u.password)
    ensures Indexed(users[id := u], emailIndex[u.email := id])
    ensures LoginOutcome(users[id := u], emailIndex[u.email := id], Some(email), Some(password), compare, sign)
              == Success(Session(PublicView(u), sign(id)))
  {
    IndexAdd(users, emailIndex, id, u);
  }

  /**
   * `login` as written. The password path is declared `select: false` and the
   * `findOne` does not ask for it back, so the user it loads has no password;
   * `comparePassword` hands `bcrypt.compare` an undefined hash, which it
   * rejects, and the handler throws for every known email.
   */
  function LoginOutcomeAsWritten(
    users: map<UserId, User>, emailIndex: map<string, UserId>, email: Option<string>, password: Option<string>)
    : (r: Result<Session, AuthError>)
    requires Indexed(users, emailIndex)
    ensures Missing(email) || Missing(password) <==> r == Failure(MissingCredentials)
    ensures r == Failure(InvalidCredentials) <==>
              !Missing(email) && !Missing(password) && Lower(email.value) !in emailIndex
    ensures r == Failure(PasswordNotLoaded) <==>
              !Missing(email) && !Missing(password) && Lower(email.value) in emailIndex
    ensures r.Failure?
  {
    if Missing(email) || Missing(password) then Failure(MissingCredentials)
    else if Lower(email.value) !in emailIndex then Failure(InvalidCredentials)
    else Failure(PasswordNotLoaded)
  }

  /**
   * As written, the user `RegisteredUserCanLogIn` logs in under the intended
   * rule is refused: the handler throws instead of answering with a session.
   */
  lemma RegisteredUserLoginThrowsAsWritten(
    users: map<UserId, User>, emailIndex: map<string, UserId>, id: UserId, u: User,
    email: string, password: string, compare: (string, string) -> bool, sign: UserId -> string)
    requires Indexed(users, emailIndex)
    requires id !in users && u.id == id && u.email == Lower(email) && u.email !in emailIndex
    requires email != "" && password != "" && compare(password, u.password)
    ensures Indexed(users[id := u], emailIndex[u.email := id])
    ensures LoginOutcomeAsWritten(users[id := u], emailIndex[u.email := id], Some(email), Some(password))
              == Failure(PasswordNotLoaded)
    ensures LoginOutcome(users[id := u], emailIndex[u.email := id], Some(email), Some(password), compare, sign).Success?
  {
    RegisteredUserCanLogIn(users, emailIndex, id, u, email, password, compare, sign);
  }

  /** The two logins agree on every answer given before the password comparison. */
  lemma LoginAsWrittenAgreesBeforeCompare(
    users: map<UserId, User>, emailIndex: map<string, UserId>, email: Option<string>, password: Option<string>,
    compare: (string, string) -> bool, sign: UserId -> string)
    requires Indexed(users, emailIndex)
    ensures Missing(email) || Missing(password) || Lower(email.value) !in emailIndex ==>
              LoginOutcomeAsWritten(users, emailIndex, email, password)
              == LoginOutcome(users, emailIndex, email, password, compare, sign)
  {
  }

  /** What `getProfile` finds for the authenticated user: the stored user without its password. */
  function ProfileOf(users: map<UserId, User>, id: UserId): (r: Option<Principal>)
    ensures r.Some? <==> id in users
    ensures r.Some? ==> r.value.id == users[id].id && r.value.name == users[id].name && r.value.email == users[id].email
                        && r.value.role == users[id].role
    ensures r.Some? ==> r.value == WithoutPassword(users[id])
  {
    if id in users then Some(WithoutPassword(users[id])) else None
  }

  class Accounts {
    var users: map<UserId, User>
    var emailIndex: map<string, UserId>
    var nextId: nat

    ghost predicate Valid()
      reads this
    {
      && Indexed(users, emailIndex)
      && (forall id :: id in users ==> users[id].id == id && id < nextId)
    }

    constructor ()
      ensures Valid() && users == map[] && emailIndex == map[] && nextId == 0
    {
      users := map[];
      emailIndex := map[];
      nextId := 0;
    }

    /**
     * `register`: an email already stored (after lower-casing) is 401 and
     * nothing is added; a document the validators refuse adds nothing;
     * otherwise exactly one user is added, with the trimmed name, the
     * lower-cased email, the client ip, role user and the hashed password,
     * and the response carries its public fields and a token for its id.
     */
    method Register(
      name: string, email: string, password: string, ip: string, now: Timestamp,
      hash: string -> string, sign: UserId -> string) returns (r: Result<Session, AuthError>)
      requires Valid()
      modifies this
      ensures Valid()
      ensures Lower(email) in old(emailIndex) <==> r == Failure(UserExists)
      ensures r.Success? <==>
                Lower(email) !in old(emailIndex) && ValidUser(NewUser(old(nextId), name, email, password, ip, now))
      ensures r.Failure? ==> users == old(users) && emailIndex == old(emailIndex) && nextId == old(nextId)
      ensures r.Success? ==>
                var u := NewUser(old(nextId), name, email, password, ip, now).(password := hash(password));
                && old(nextId) !in old(users)
                && users == old(users)[old(nextId) := u]
                && emailIndex == old(emailIndex)[u.email := old(nextId)]
                && nextId == old(nextId) + 1
                && r.value == Session(PublicView(u), sign(old(nextId)))
    {
      var key := Lower(email);
      if key in emailIndex {
        return Failure(UserExists);
      }
      var created := NewUser(nextId, name, email, password, ip, now);
      if !ValidUser(created) {
        return Failure(AccountRejected);
      }
      var doc := new UserDocument(created);
      doc.Save(hash);
      var stored := doc.record;
      assert stored == created.(password := hash(password));
      IndexAdd(users, emailIndex, nextId, stored);
      users := users[nextId := stored];
      emailIndex := emailIndex[key := nextId];
      nextId := nextId + 1;
      return Success(Session(PublicView(stored), sign(stored.id)));
    }

    /** `login` as written, against the stored users: a known email never gets past the comparison. */
    method Login(email: Option<string>, password: Option<string>) returns (r: Result<Session, AuthError>)
      requires Valid()
      ensures r == LoginOutcomeAsWritten(users, emailIndex, email, password)
    {
      if email.None? || email.value == "" || password.None? || password.value == "" {
        return Failure(MissingCredentials);
      }
      var key := Lower(email.value);
      if key !in emailIndex {
        return Failure(InvalidCredentials);
      }
      return Failure(PasswordNotLoaded);
    }

    /** `login` as evidently intended, against the stored users, with its early returns. */
    method LoginIntended(email: Option<string>, password: Option<string>, compare: (string, string) -> bool, sign: UserId -> string)
      returns (r: Result<Session, AuthError>)
      requires Valid()
      ensures r == LoginOutcome(users, emailIndex, email, password, compare, sign)
    {
      if email.None? || email.value == "" || password.None? || password.value == "" {
        return Failure(MissingCredentials);
      }
      var key := Lower(email.value);
      if key !in emailIndex {
        return Failure(InvalidCredentials);
      }
      var user := users[emailIndex[key]];
      if !compare(password.value, user.password) {
        return Failure(WrongPassword);
      }
      return Success(Session(PublicView(user), sign(user.id)));
    }

    /** `getProfile` for the id the authentication step attached. */
    method GetProfile(id: UserId) returns (r: Option<Principal>)
      ensures r == ProfileOf(users, id)
    {
      if id !in users {
        return None;
      }
      return Some(WithoutPassword(users[id]));
    }
  }
}
