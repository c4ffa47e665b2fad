/**
 * The token check that both the REST filter and the stream handshake perform: take the
 * subject, load that account, validate the token against it.
 */
module TokenCheck {
  import opened Wrappers
  import JvmLong
  import opened Jwt

  /** The accounts, keyed by the name `loadUserByUsername` looks them up by (the email). */
  type UserDirectory = map<string, UserDetails>

  /** Every account is filed under its own username, as the repository lookup by email does. */
  predicate Consistent(users: UserDirectory) {
    forall name :: name in users ==> users[name].username == name
  }

  /** `loadUserByUsername(username)`: the account, or a thrown "not found". */
  function LoadUserByUsername(users: UserDirectory, username: string): (r: Result<UserDetails, AuthError>)
    ensures r.Ok? <==> username in users
    ensures r.Ok? ==> r.value == users[username]
    ensures r.Err? ==> r.error == UserNotFound(username)
  {
    if username in users then Ok(users[username]) else Err(UserNotFound(username))
  }

  /** The outcome of a check that did not throw. */
  datatype Verdict = Accepted(user: UserDetails) | Rejected

  /**
   * `extractUsername`, `loadUserByUsername`, then `validateToken`, in that order; any of
   * the three may throw.
   */
  function Check(util: JwtUtil, users: UserDirectory, token: string, now: int)
    : (r: Result<Verdict, AuthError>)
    ensures r.Err? <==>
      ExtractAllClaims(util, token, now).Err? ||
      ExtractAllClaims(util, token, now).value.subject !in users
    ensures r.Ok? && r.value.Accepted? <==>
      && ExtractAllClaims(util, token, now).Ok?
      && var claims := ExtractAllClaims(util, token, now).value;
      && claims.subject in users
      && users[claims.subject].username == claims.subject
      && now <= claims.expiration
    ensures r.Ok? && r.value.Accepted? ==>
      r.value.user == users[ExtractAllClaims(util, token, now).value.subject]
  {
    match ExtractUsername(util, token, now)
    case Err(e) => Err(e)
    case Ok(username) =>
      match LoadUserByUsername(users, username)
      case Err(e) => Err(e)
      case Ok(user) =>
        match ValidateToken(util, token, user, now)
        case Err(e) => Err(e)
        case Ok(valid) => if valid then Ok(Accepted(user)) else Ok(Rejected)
  }

  /** True when the check accepts the token (neither rejects it nor throws). */
  predicate Admits(util: JwtUtil, users: UserDirectory, token: string, now: int) {
    Check(util, users, token, now).Ok? && Check(util, users, token, now).value.Accepted?
  }

  /**
   * Against a consistent directory, a token is admitted iff it parses, names a known account,
   * and has not expired.
   */
  lemma AdmitsIff(util: JwtUtil, users: UserDirectory, token: string, now: int)
    requires Consistent(users)
    ensures Admits(util, users, token, now) <==>
      && ExtractAllClaims(util, token, now).Ok?
      && ExtractAllClaims(util, token, now).value.subject in users
      && now <= ExtractAllClaims(util, token, now).value.expiration
  {
  }

  /** A token issued to a known account is admitted until it expires, and not after. */
  lemma IssuedTokenAdmitted(util: JwtUtil, users: UserDirectory, user: UserDetails, issued: int, now: int)
    requires RoundTrips(util.codec)
    requires SigningKey(util).Ok?
    requires JvmLong.IsLong(issued + util.expiration)
    requires user.username in users && users[user.username] == user
    ensures Admits(util, users, GenerateToken(util, user, issued).value, now)
      <==> now <= issued + util.expiration
  {
    var token := GenerateToken(util, user, issued).value;
    if now <= issued + util.expiration {
      GeneratedValidUntilExpiry(util, user, issued, now);
      assert ExtractAllClaims(util, token, now).value.subject == user.username;
    } else {
      GeneratedInvalidAfterExpiry(util, user, issued, now);
    }
  }
}
