/**
 * Token issue and validation. Signing and parsing belong to a JWS library and appear here as
 * the two functions of a `JwsCodec`; what the core needs of them is the hypothesis
 * `RoundTrips`. Time is a parameter (milliseconds since the epoch, as `java.util.Date`).
 */
module Jwt {
  import opened Wrappers
  import JvmLong
  import KotlinText

  /** The claims a token carries: custom claims, subject, issued-at and expiry (ms). */
  datatype Claims = Claims(custom: map<string, string>, subject: string, issuedAt: int, expiration: int)

  /**
   * The JWS library. `sign(key, claims)` builds a compact signed token; `parse(key, token, now)`
   * verifies the signature and returns the claims, or `None` where the library throws.
   */
  datatype JwsCodec = JwsCodec(
    sign: (string, Claims) -> string,
    parse: (string, string, int) -> Option<Claims>
  )

  /**
   * What the core relies on from the library: parsing a token it signed with the same key gives
   * back exactly the claims signed, except that an already expired token may be rejected
   * instead (whether it is, is left open).
   */
  ghost predicate RoundTrips(codec: JwsCodec) {
    forall key, claims, now ::
      || codec.parse(key, codec.sign(key, claims), now) == Some(claims)
      || (claims.expiration < now && codec.parse(key, codec.sign(key, claims), now) == None)
  }

  /** Why a token operation throws. */
  datatype AuthError =
    | WeakKey          // the secret is shorter than 256 bits
    | InvalidToken     // malformed, signature mismatch, or refused by the library
    | UserNotFound(username: string)

  /** What the security layer knows about an account; `username` is the account's email. */
  datatype UserDetails = UserDetails(username: string, authorities: seq<string>)

  /** The JWT settings: the shared secret, the validity horizon, and the library. */
  datatype JwtUtil = JwtUtil(secret: string, expiration: int, codec: JwsCodec)

  /** Smallest HMAC-SHA key the library accepts, in bytes (256 bits). */
  const MinKeyBytes: nat := 32

  /** `getSigningKey()`: the secret's UTF-8 bytes, refused when shorter than 256 bits. */
  function SigningKey(util: JwtUtil): (r: Result<string, AuthError>)
    ensures r.Ok? <==> KotlinText.Utf8Length(util.secret) >= MinKeyBytes
    ensures r.Ok? ==> r.value == util.secret
    ensures r.Err? ==> r.error == WeakKey
  {
    if KotlinText.Utf8Length(util.secret) < MinKeyBytes then Err(WeakKey) else Ok(util.secret)
  }

  /** `createToken(claims, subject)` at time `now`: expiry is `now + expiration` as a `Long`. */
  function CreateToken(util: JwtUtil, custom: map<string, string>, subject: string, now: int)
    : (r: Result<string, AuthError>)
    ensures r.Err? <==> SigningKey(util).Err?
  {
    match SigningKey(util)
    case Err(e) => Err(e)
    case Ok(key) =>
      Ok(util.codec.sign(key, Claims(custom, subject, now, JvmLong.Add(now, util.expiration))))
  }

  /** `generateToken(user)` at time `now`: no custom claims, the username as subject. */
  function GenerateToken(util: JwtUtil, user: UserDetails, now: int): (r: Result<string, AuthError>)
    ensures r.Err? <==> SigningKey(util).Err?
  {
    CreateToken(util, map[], user.username, now)
  }

  /** `extractAllClaims(token)`: verify and decode; throws on a weak key or a refused token. */
  function ExtractAllClaims(util: JwtUtil, token: string, now: int): (r: Result<Claims, AuthError>)
    ensures SigningKey(util).Err? ==> r == Err(WeakKey)
    ensures SigningKey(util).Ok? ==>
      (r.Ok? <==> util.codec.parse(util.secret, token, now).Some?)
    ensures r.Ok? ==> Some(r.value) == util.codec.parse(util.secret, token, now)
  {
    match SigningKey(util)
    case Err(e) => Err(e)
    case Ok(key) =>
      match util.codec.parse(key, token, now)
      case None => Err(InvalidToken)
      case Some(claims) => Ok(claims)
  }

  /** `extractUsername(token)`: the subject claim. */
  function ExtractUsername(util: JwtUtil, token: string, now: int): (r: Result<string, AuthError>)
    ensures r.Ok? <==> ExtractAllClaims(util, token, now).Ok?
    ensures r.Ok? ==> r.value == ExtractAllClaims(util, token, now).value.subject
  {
    match ExtractAllClaims(util, token, now)
    case Err(e) => Err(e)
    case Ok(claims) => Ok(claims.subject)
  }

  /** `extractExpiration(token)`: the expiry claim. */
  function ExtractExpiration(util: JwtUtil, token: string, now: int): (r: Result<int, AuthError>)
    ensures r.Ok? <==> ExtractAllClaims(util, token, now).Ok?
    ensures r.Ok? ==> r.value == ExtractAllClaims(util, token, now).value.expiration
  {
    match ExtractAllClaims(util, token, now)
    case Err(e) => Err(e)
    case Ok(claims) => Ok(claims.expiration)
  }

  /** `isTokenExpired(token)`: the expiry lies strictly before `now`. */
  function IsTokenExpired(util: JwtUtil, token: string, now: int): (r: Result<bool, AuthError>)
    ensures r.Ok? <==> ExtractAllClaims(util, token, now).Ok?
    ensures r.Ok? ==> (r.value <==> ExtractAllClaims(util, token, now).value.expiration < now)
  {
    match ExtractExpiration(util, token, now)
    case Err(e) => Err(e)
    case Ok(expiration) => Ok(expiration < now)
  }

  /**
   * `validateToken(token, user)`: true iff the token parses, its subject is the user's
   * username, and it has not expired (a token expiring exactly at `now` is still valid).
   */
  function ValidateToken(util: JwtUtil, token: string, user: UserDetails, now: int)
    : (r: Result<bool, AuthError>)
    ensures r.Err? <==> ExtractAllClaims(util, token, now).Err?
    ensures r.Err? ==> r.error == ExtractAllClaims(util, token, now).error
    ensures r == Ok(true) <==>
      && ExtractAllClaims(util, token, now).Ok?
      && ExtractAllClaims(util, token, now).value.subject == user.username
      && now <= ExtractAllClaims(util, token, now).value.expiration
  {
    match ExtractUsername(util, token, now)
    case Err(e) => Err(e)
    case Ok(username) =>
      match IsTokenExpired(util, token, now)
      case Err(e) => Err(e)
      case Ok(expired) => Ok(username == user.username && !expired)
  }

  /**
   * With a key the library accepts and a horizon that neither is negative nor overflows, a
   * generated token parses back to its claims: the user's username as subject, no custom
   * claims, issued at `now`, expiring `expiration` ms later.
   */
  lemma GeneratedClaims(util: JwtUtil, user: UserDetails, now: int)
    requires RoundTrips(util.codec)
    requires SigningKey(util).Ok?
    requires 0 <= util.expiration && JvmLong.IsLong(now + util.expiration)
    ensures GenerateToken(util, user, now).Ok?
    ensures ExtractAllClaims(util, GenerateToken(util, user, now).value, now)
      == Ok(Claims(map[], user.username, now, now + util.expiration))
  {
    var claims := Claims(map[], user.username, now, now + util.expiration);
    assert GenerateToken(util, user, now).value == util.codec.sign(util.secret, claims);
    assert !(claims.expiration < now);
  }

  /**
   * Parsing any token the library signed with this key gives back its claims, unless the
   * token has expired and the library refuses it.
   */
  lemma SignedClaimsRoundTrip(util: JwtUtil, claims: Claims, now: int)
    requires RoundTrips(util.codec)
    requires SigningKey(util).Ok?
    ensures var r := ExtractAllClaims(util, util.codec.sign(util.secret, claims), now);
      || r == Ok(claims)
      || (claims.expiration < now && r == Err(InvalidToken))
  {
  }

  /** `extractUsername(generateToken(user)) == user.username`. */
  lemma GeneratedUsername(util: JwtUtil, user: UserDetails, now: int)
    requires RoundTrips(util.codec)
    requires SigningKey(util).Ok?
    requires 0 <= util.expiration && JvmLong.IsLong(now + util.expiration)
    ensures ExtractUsername(util, GenerateToken(util, user, now).value, now) == Ok(user.username)
  {
    GeneratedClaims(util, user, now);
  }

  /**
   * `extractExpiration` of a generated token is the instant `createToken` set, and it is
   * readable at least until then.
   */
  lemma GeneratedExpiration(util: JwtUtil, user: UserDetails, issued: int, now: int)
    requires RoundTrips(util.codec)
    requires SigningKey(util).Ok?
    requires JvmLong.IsLong(issued + util.expiration)
    ensures var r := ExtractExpiration(util, GenerateToken(util, user, issued).value, now);
      && (now <= issued + util.expiration ==> r.Ok?)
      && (r.Ok? ==> r.value == issued + util.expiration)
  {
    var claims := Claims(map[], user.username, issued, issued + util.expiration);
    assert GenerateToken(util, user, issued).value == util.codec.sign(util.secret, claims);
  }

  /**
   * `isTokenExpired` of a generated token answers `false` exactly up to and including its
   * expiry; afterwards it answers `true` or throws.
   */
  lemma GeneratedExpiredIff(util: JwtUtil, user: UserDetails, issued: int, now: int)
    requires RoundTrips(util.codec)
    requires SigningKey(util).Ok?
    requires JvmLong.IsLong(issued + util.expiration)
    ensures IsTokenExpired(util, GenerateToken(util, user, issued).value, now) == Ok(false)
      <==> now <= issued + util.expiration
  {
    var claims := Claims(map[], user.username, issued, issued + util.expiration);
    assert GenerateToken(util, user, issued).value == util.codec.sign(util.secret, claims);
  }

  /**
   * A token generated at `issued` validates for its user at every `now` up to and including its
   * expiry.
   */
  lemma GeneratedValidUntilExpiry(util: JwtUtil, user: UserDetails, issued: int, now: int)
    requires RoundTrips(util.codec)
    requires SigningKey(util).Ok?
    requires JvmLong.IsLong(issued + util.expiration)
    requires now <= issued + util.expiration
    ensures ValidateToken(util, GenerateToken(util, user, issued).value, user, now) == Ok(true)
  {
    var claims := Claims(map[], user.username, issued, issued + util.expiration);
    assert GenerateToken(util, user, issued).value == util.codec.sign(util.secret, claims);
    assert !(claims.expiration < now);
  }

  /**
   * Once the clock is past its expiry, a generated token never validates: the library either
   * refuses it or hands back an expiry that `isTokenExpired` catches.
   */
  lemma GeneratedInvalidAfterExpiry(util: JwtUtil, user: UserDetails, issued: int, now: int)
    requires RoundTrips(util.codec)
    requires SigningKey(util).Ok?
    requires JvmLong.IsLong(issued + util.expiration)
    requires issued + util.expiration < now
    ensures ValidateToken(util, GenerateToken(util, user, issued).value, user, now) != Ok(true)
  {
    var claims := Claims(map[], user.username, issued, issued + util.expiration);
    assert GenerateToken(util, user, issued).value == util.codec.sign(util.secret, claims);
  }

  /** A token for some other subject never validates for `user`, whatever the time. */
  lemma GeneratedForOtherUserInvalid(util: JwtUtil, owner: UserDetails, user: UserDetails,
                                     issued: int, now: int)
    requires RoundTrips(util.codec)
    requires SigningKey(util).Ok?
    requires owner.username != user.username
    ensures ValidateToken(util, GenerateToken(util, owner, issued).value, user, now) != Ok(true)
  {
    var claims := Claims(map[], owner.username, issued, JvmLong.Add(issued, util.expiration));
    assert GenerateToken(util, owner, issued).value == util.codec.sign(util.secret, claims);
  }

  /** With a secret shorter than 256 bits no token can be issued or accepted. */
  lemma WeakSecretRefusesAll(util: JwtUtil, user: UserDetails, token: string, now: int)
    requires KotlinText.Utf8Length(util.secret) < MinKeyBytes
    ensures GenerateToken(util, user, now) == Err(WeakKey)
    ensures ValidateToken(util, token, user, now) == Err(WeakKey)
  {
  }
}
