/**
 * The user document schema: trimmed name of at most 50 characters, lower-cased
 * email matching `^[^\s@]+@[^\s@]+\.[^\s@]+$`, password of at least six
 * characters, role `user` by default, address entries with five required
 * fields, and the pre-save hook that hashes the password only when it changed.
 */
module UserSchema {
  import opened Wrappers
  import opened Text
  import opened Types
  import OrderSchema

  /** A character of the class `[^\s@]`. */
  predicate IsEmailChar(c: char) { !IsWhitespace(c) && c != '@' }

  predicate AllEmailChars(s: string) {
    forall k :: 0 <= k < |s| ==> IsEmailChar(s[k])
  }

  /**
   * What the email pattern accepts, read off the expression: a non-empty run of
   * `[^\s@]`, an `@`, a non-empty run, a `.`, a non-empty run, and nothing else.
   */
  ghost predicate EmailPattern(s: string) {
    exists a, d :: 0 < a && a + 1 < d && d + 1 < |s| && s[a] == '@' && s[d] == '.'
      && AllEmailChars(s[..a]) && AllEmailChars(s[a + 1..d]) && AllEmailChars(s[d + 1..])
  }

  /** The matcher: split at the first `@`, then look for a dot strictly inside the rest. */
  function MatchesEmail(s: string): bool {
    match IndexOf(s, "@")
    case None => false
    case Some(a) =>
      var host := s[a + 1..];
      && 0 < a && AllEmailChars(s[..a]) && AllEmailChars(host)
      && exists k | 0 < k < |host| - 1 :: host[k] == '.'
  }

  lemma OccursAtSingle(s: string, c: char, k: int)
    ensures OccursAt(s, [c], k) <==> 0 <= k < |s| && s[k] == c
  {
    if 0 <= k < |s| {
      assert s[k..k + 1] == [s[k]];
    }
  }

  lemma EmailCharsJoin(x: string, c: char, y: string)
    requires AllEmailChars(x) && IsEmailChar(c) && AllEmailChars(y)
    ensures AllEmailChars(x + [c] + y)
  {
    var z := x + [c] + y;
    forall k | 0 <= k < |z| ensures IsEmailChar(z[k]) {
      if k < |x| { assert z[k] == x[k]; }
      else if k > |x| { assert z[k] == y[k - |x| - 1]; }
    }
  }

  lemma MatchedEmailFitsPattern(s: string)
    requires MatchesEmail(s)
    ensures EmailPattern(s)
  {
    var a := IndexOf(s, "@").value;
    OccursAtSingle(s, '@', a);
    var host := s[a + 1..];
    var k :| 0 < k < |host| - 1 && host[k] == '.';
    var d := a + 1 + k;
    assert s[a + 1..d] == host[..k];
    assert s[d + 1..] == host[k + 1..];
    assert s[d] == '.';
  }

  /** An `@` with no `@` before it is the one `indexOf` finds. */
  lemma FirstAtSign(s: string, a: int)
    requires 0 <= a < |s| && s[a] == '@' && AllEmailChars(s[..a])
    ensures IndexOf(s, "@") == Some(a)
  {
    OccursAtSingle(s, '@', a);
    forall k | 0 <= k < a ensures !OccursAt(s, "@", k) {
      OccursAtSingle(s, '@', k);
      assert s[k] == s[..a][k];
    }
  }

  lemma PatternEmailMatches(s: string)
    requires EmailPattern(s)
    ensures MatchesEmail(s)
  {
    var a, d :| 0 < a && a + 1 < d && d + 1 < |s| && s[a] == '@' && s[d] == '.'
      && AllEmailChars(s[..a]) && AllEmailChars(s[a + 1..d]) && AllEmailChars(s[d + 1..]);
    FirstAtSign(s, a);
    DomainFits(s, a, d);
    var host := s[a + 1..];
    assert 0 < d - a - 1 < |host| - 1 && host[d - a - 1] == '.';
  }

  /** The part after the `@` is a run of `[^\s@]` with the dot strictly inside. */
  lemma DomainFits(s: string, a: int, d: int)
    requires 0 < a && a + 1 < d && d + 1 < |s| && s[d] == '.'
    requires AllEmailChars(s[a + 1..d]) && AllEmailChars(s[d + 1..])
    ensures AllEmailChars(s[a + 1..]) && s[a + 1..][d - a - 1] == '.'
  {
    var host := s[a + 1..];
    assert host == s[a + 1..d] + [s[d]] + s[d + 1..];
    assert IsEmailChar('.') by { assert '.' !in Whitespace; }
    EmailCharsJoin(s[a + 1..d], '.', s[d + 1..]);
  }

  /** The matcher accepts exactly the strings the email pattern describes. */
  lemma MatchesEmailIsPattern(s: string)
    ensures MatchesEmail(s) <==> EmailPattern(s)
  {
    if MatchesEmail(s) { MatchedEmailFitsPattern(s); }
    if EmailPattern(s) { PatternEmailMatches(s); }
  }

  /** Every address entry needs all five fields. */
  predicate ValidAddressEntry(a: Address) {
    OrderSchema.ValidAddress(a)
  }

  /** What the user validators accept (the setters have already run). */
  predicate ValidUser(u: User) {
    && u.name != "" && |u.name| <= 50
    && u.email != "" && MatchesEmail(u.email)
    && u.password != "" && |u.password| >= 6
    && (forall k :: 0 <= k < |u.address| ==> ValidAddressEntry(u.address[k]))
  }

  /**
   * The document `UserModel.create({ name, email, password, ip })` builds:
   * the name trimmed, the email lower-cased, role `user`, no addresses, both
   * dates now. The password is still the plaintext; hashing happens on save.
   */
  function NewUser(id: UserId, name: string, email: string, password: string, ip: string, now: Timestamp)
    : (u: User)
    ensures u.id == id && u.name == Trim(name) && u.email == Lower(email) && u.password == password
    ensures u.role == Customer && u.address == [] && u.ip == ip
    ensures u.createdAt == now && u.updatedAt == now
  {
    User(id, Trim(name), Lower(email), password, Customer, [], ip, now, now)
  }

  /**
   * A fresh user passes the validators exactly when the trimmed name has 1 to
   * 50 characters, the lower-cased email matches the pattern and the password
   * has at least six characters.
   */
  lemma NewUserValidIff(id: UserId, name: string, email: string, password: string, ip: string, now: Timestamp)
    ensures ValidUser(NewUser(id, name, email, password, ip, now)) <==>
              && 1 <= |Trim(name)| <= 50
              && EmailPattern(Lower(email))
              && |password| >= 6
  {
    MatchesEmailIsPattern(Lower(email));
  }

  /**
   * A user document being saved. `passwordModified` is Mongoose's
   * `isModified('password')`: true for a new document and after the password
   * is assigned, false once the document has been saved.
   */
  class UserDocument {
    var record: User
    var passwordModified: bool

    constructor (u: User)
      ensures record == u && passwordModified
    {
      record := u;
      passwordModified := true;
    }

    method SetPassword(p: string)
      modifies this
      ensures record == old(record).(password := p) && passwordModified
    {
      record := record.(password := p);
      passwordModified := true;
    }

    /** The pre-save hook: hash the password only when it was modified. */
    method PreSave(hash: string -> string)
      modifies this
      ensures passwordModified == old(passwordModified)
      ensures old(passwordModified) ==> record == old(record).(password := hash(old(record).password))
      ensures !old(passwordModified) ==> record == old(record)
    {
      if !passwordModified {
        return;
      }
      record := record.(password := hash(record.password));
    }

    /** `save()`: the hook, then the document is clean, so a second save does not hash again. */
    method Save(hash: string -> string)
      modifies this
      ensures old(passwordModified) ==> record == old(record).(password := hash(old(record).password))
      ensures !old(passwordModified) ==> record == old(record)
      ensures !passwordModified
    {
      PreSave(hash);
      passwordModified := false;
    }
  }

  /** Saving twice hashes once. */
  method SaveTwice(doc: UserDocument, hash: string -> string)
    requires doc.passwordModified
    modifies doc
    ensures doc.record == old(doc.record).(password := hash(old(doc.record).password))
  {
    doc.Save(hash);
    doc.Save(hash);
  }
}
