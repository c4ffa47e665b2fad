/**
 * The per-request bearer-token filter: takes the token from the `Authorization` header and,
 * when nobody is authenticated yet and the token checks out, authenticates the request; then
 * always continues the chain.
 */
module JwtFilter {
  import opened Wrappers
  import JvmLong
  import opened KotlinText
  import opened Jwt
  import opened TokenCheck

  /** The scheme prefix of the header, with its space; matched case-sensitively. */
  const BearerPrefix: string := "Bearer "

  /** `extractJwtFromRequest`: the header minus `"Bearer "`, or `null`. */
  function ExtractJwtFromRequest(authorization: Option<string>): (r: Option<string>)
    ensures r.Some? <==> authorization.Some? && StartsWith(authorization.value, BearerPrefix)
    ensures r.Some? ==> authorization.value == BearerPrefix + r.value
  {
    if authorization.Some? && StartsWith(authorization.value, BearerPrefix)
    then
      assert authorization.value == BearerPrefix + authorization.value[|BearerPrefix|..];
      Some(authorization.value[|BearerPrefix|..])
    else None
  }

  /** Whatever token is put behind `"Bearer "` is what comes out, the empty one included. */
  lemma BearerRoundTrip(token: string)
    ensures ExtractJwtFromRequest(Some(BearerPrefix + token)) == Some(token)
  {
    assert (BearerPrefix + token)[..|BearerPrefix|] == BearerPrefix;
  }

  /**
   * A missing header, or one of another scheme, yields nothing, even one that differs only in
   * case or lacks the space; the bare prefix yields the empty token, not nothing.
   */
  lemma OtherSchemesIgnored(token: string)
    ensures ExtractJwtFromRequest(Some("bearer " + token)) == None
    ensures ExtractJwtFromRequest(Some("Bearer")) == None
    ensures ExtractJwtFromRequest(None) == None
    ensures ExtractJwtFromRequest(Some("Bearer ")) == Some("")
  {
    assert ("bearer " + token)[0] == 'b';
    BearerRoundTrip("");
    assert BearerPrefix + "" == "Bearer ";
  }

  /**
   * An authenticated request: `UsernamePasswordAuthenticationToken(user, null, authorities)`,
   * whose `getName()` is the user's username.
   */
  datatype Authentication = Authentication(name: string, authorities: seq<string>)

  /** The authentication the filter builds for an accepted account. */
  function AuthenticationOf(user: UserDetails): (a: Authentication)
    ensures a.name == user.username && a.authorities == user.authorities
  {
    Authentication(user.username, user.authorities)
  }

  /**
   * The context's authentication after the filter's decision: set only when a token is present,
   * none was set before, and the check accepts it; kept as it was on every other path,
   * including every path where the check throws.
   */
  function Decide(existing: Option<Authentication>, authorization: Option<string>,
                  util: JwtUtil, users: UserDirectory, now: int): (r: Option<Authentication>)
    ensures existing.Some? ==> r == existing
    ensures r != existing <==>
      && existing.None?
      && ExtractJwtFromRequest(authorization).Some?
      && Admits(util, users, ExtractJwtFromRequest(authorization).value, now)
    ensures r != existing ==>
      r == Some(AuthenticationOf(Check(util, users, ExtractJwtFromRequest(authorization).value, now).value.user))
  {
    var jwt := ExtractJwtFromRequest(authorization);
    if jwt.Some? && existing.None? then
      match Check(util, users, jwt.value, now)
      case Ok(Accepted(user)) => Some(AuthenticationOf(user))
      case _ => existing
    else existing
  }

  /**
   * A request carrying a token issued to a known account, sent while the token is live and
   * nobody is authenticated yet, ends up authenticated as that account.
   */
  lemma LiveTokenAuthenticates(util: JwtUtil, users: UserDirectory, user: UserDetails,
                               issued: int, now: int)
    requires RoundTrips(util.codec)
    requires SigningKey(util).Ok?
    requires JvmLong.IsLong(issued + util.expiration)
    requires user.username in users && users[user.username] == user
    requires now <= issued + util.expiration
    ensures var token := GenerateToken(util, user, issued).value;
      Decide(None, Some(BearerPrefix + token), util, users, now) == Some(AuthenticationOf(user))
  {
    var token := GenerateToken(util, user, issued).value;
    BearerRoundTrip(token);
    IssuedTokenAdmitted(util, users, user, issued, now);
    GeneratedValidUntilExpiry(util, user, issued, now);
  }

  /** The holder of the current request's authentication (`SecurityContextHolder.getContext()`). */
  class SecurityContext {
    var authentication: Option<Authentication>

    constructor (authentication: Option<Authentication>)
      ensures this.authentication == authentication
    {
      this.authentication := authentication;
    }
  }

  /** The rest of the filter chain; `invocations` counts how often it is continued. */
  class FilterChain {
    var invocations: nat

    constructor ()
      ensures invocations == 0
    {
      invocations := 0;
    }

    method DoFilter()
      modifies this
      ensures invocations == old(invocations) + 1
    {
      invocations := invocations + 1;
    }
  }

  class JwtAuthenticationFilter {
    const jwtUtil: JwtUtil

    constructor (jwtUtil: JwtUtil)
      ensures this.jwtUtil == jwtUtil
    {
      this.jwtUtil := jwtUtil;
    }

    /**
     * `doFilterInternal`: decide the authentication (swallowing anything the check throws),
     * then continue the chain exactly once.
     */
    method DoFilterInternal(authorization: Option<string>, context: SecurityContext,
                            chain: FilterChain, users: UserDirectory, now: int)
      modifies context, chain
      ensures context.authentication
        == Decide(old(context.authentication), authorization, jwtUtil, users, now)
      ensures chain.invocations == old(chain.invocations) + 1
    {
      var jwt := ExtractJwtFromRequest(authorization);
      if jwt.Some? && context.authentication.None? {
        var outcome := Check(jwtUtil, users, jwt.value, now);
        if outcome.Ok? && outcome.value.Accepted? {
          context.authentication := Some(AuthenticationOf(outcome.value.user));
        }
      }
      chain.DoFilter();
    }
  }
}
