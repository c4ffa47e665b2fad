/**
 * The stream handshake gate: a connection is registered with the broadcaster only when the
 * `token` query parameter of its handshake URI passes the token check; otherwise it is closed
 * with a policy violation. Closing a connection always unregisters it.
 */
module WebSocketGate {
  import opened Wrappers
  import opened KotlinText
  import opened Jwt
  import opened TokenCheck
  import opened Broadcasting

  /** The query parameter the token travels in. */
  const TokenKey: string := "token"

  /** A query pair names the token: split at its first `=`, the key is exactly `token`. */
  predicate IsTokenPair(pair: string) {
    var parts := SplitFirst(pair, '=');
    |parts| == 2 && parts[0] == TokenKey
  }

  /** A pair names the token iff it starts with `token=`; its value is everything after that. */
  lemma TokenPairIff(pair: string)
    ensures IsTokenPair(pair) <==> StartsWith(pair, TokenKey + "=")
    ensures IsTokenPair(pair) ==> SplitFirst(pair, '=')[1] == pair[|TokenKey| + 1..]
  {
    var parts := SplitFirst(pair, '=');
    if StartsWith(pair, TokenKey + "=") {
      assert pair[5] == '=' && forall k :: 0 <= k < 5 ==> pair[k] != '=';
      assert IndexOf(pair, '=') == 5;
    }
    if |parts| == 2 {
      assert pair == parts[0] + "=" + parts[1];
    }
  }

  /** The value of the first pair (left to right) that names the token, or `null`. */
  function FirstToken(pairs: seq<string>): Option<string>
  {
    if pairs == [] then None
    else if IsTokenPair(pairs[0]) then Some(SplitFirst(pairs[0], '=')[1])
    else FirstToken(pairs[1..])
  }

  /**
   * `FirstToken` finds nothing iff no pair names the token, and otherwise returns the value of
   * the leftmost pair that does.
   */
  lemma {:induction false} FirstTokenSpec(pairs: seq<string>)
    ensures FirstToken(pairs).None? <==> forall i :: 0 <= i < |pairs| ==> !IsTokenPair(pairs[i])
    ensures FirstToken(pairs).Some? ==>
      exists i :: 0 <= i < |pairs| && IsTokenPair(pairs[i])
        && (forall j :: 0 <= j < i ==> !IsTokenPair(pairs[j]))
        && FirstToken(pairs).value == SplitFirst(pairs[i], '=')[1]
  {
    if pairs != [] && !IsTokenPair(pairs[0]) {
      FirstTokenSpec(pairs[1..]);
      if FirstToken(pairs).Some? {
        var i :| 0 <= i < |pairs[1..]| && IsTokenPair(pairs[1..][i])
          && (forall j :: 0 <= j < i ==> !IsTokenPair(pairs[1..][j]))
          && FirstToken(pairs[1..]).value == SplitFirst(pairs[1..][i], '=')[1];
        assert IsTokenPair(pairs[i + 1]);
        assert forall j :: 0 <= j < i + 1 ==> !IsTokenPair(pairs[j]) by {
          forall j | 0 <= j < i + 1 ensures !IsTokenPair(pairs[j]) {
            if j > 0 { assert pairs[j] == pairs[1..][j - 1]; }
          }
        }
      } else {
        forall i | 0 <= i < |pairs| ensures !IsTokenPair(pairs[i]) {
          if i > 0 { assert pairs[i] == pairs[1..][i - 1]; }
        }
      }
    }
  }

  /** The token of a handshake: `null` without a URI or a query, else the first `token` value. */
  function TokenParam(uri: Option<Uri>): Option<string>
  {
    if uri.None? || uri.value.query.None? then None
    else FirstToken(Split(uri.value.query.value, '&'))
  }

  /** `extractToken(session)`: walk the `&`-separated pairs and return at the first `token`. */
  method ExtractToken(uri: Option<Uri>) returns (token: Option<string>)
    ensures token == TokenParam(uri)
  {
    if uri.None? || uri.value.query.None? {
      return None;
    }
    var pairs := Split(uri.value.query.value, '&');
    for i := 0 to |pairs|
      invariant FirstToken(pairs[i..]) == FirstToken(pairs)
    {
      var parts := SplitFirst(pairs[i], '=');
      if |parts| == 2 && parts[0] == TokenKey {
        return Some(parts[1]);
      }
      assert pairs[i..][1..] == pairs[i + 1..];
    }
    return None;
  }

  /** `token=a=b` yields `a=b`: only the first `=` splits. */
  lemma ValueKeepsLaterEquals()
    ensures TokenParam(Some(Uri(Some("token=a=b")))) == Some("a=b")
  {
    var q := "token=a=b";
    SplitFree(q, '&');
    TokenPairIff(q);
  }

  /**
   * The handshake is admitted iff a token is present, is not blank, and the check accepts it
   * (a thrown lookup or validation counts as a refusal).
   */
  predicate HandshakeAdmits(util: JwtUtil, users: UserDirectory, token: Option<string>, now: int) {
    token.Some? && !IsBlank(token.value) && Admits(util, users, token.value, now)
  }

  /** A missing, empty (`token=`) or whitespace-only token is refused before any check. */
  lemma BlankTokensRefused(util: JwtUtil, users: UserDirectory, blank: string, now: int)
    requires IsBlank(blank)
    ensures !HandshakeAdmits(util, users, None, now)
    ensures !HandshakeAdmits(util, users, Some(blank), now)
    ensures TokenParam(Some(Uri(Some("token=")))) == Some("")
    ensures TokenParam(Some(Uri(None))) == None && TokenParam(None) == None
  {
    SplitFree("token=", '&');
    TokenPairIff("token=");
  }

  class RequestLogWebSocketHandler {
    const jwtUtil: JwtUtil
    const broadcaster: RequestLogBroadcaster

    constructor (jwtUtil: JwtUtil, broadcaster: RequestLogBroadcaster)
      ensures this.jwtUtil == jwtUtil && this.broadcaster == broadcaster
    {
      this.jwtUtil := jwtUtil;
      this.broadcaster := broadcaster;
    }

    /**
     * `afterConnectionEstablished(session)`: an admitted session is registered exactly once and
     * left open; any other is closed with POLICY_VIOLATION and never registered.
     */
    method AfterConnectionEstablished(session: WebSocketSession, users: UserDirectory, now: int)
      modifies session, broadcaster
      ensures HandshakeAdmits(jwtUtil, users, TokenParam(session.uri), now) ==>
        && broadcaster.sessions == old(broadcaster.sessions) + {session}
        && session.isOpen == old(session.isOpen)
        && session.closeStatus == old(session.closeStatus)
      ensures !HandshakeAdmits(jwtUtil, users, TokenParam(session.uri), now) ==>
        && broadcaster.sessions == old(broadcaster.sessions)
        && !session.isOpen
        && session.closeStatus == Some(PolicyViolation)
      ensures broadcaster.payloads == old(broadcaster.payloads)
      ensures session.received == old(session.received) && session.sendFails == old(session.sendFails)
    {
      var token := ExtractToken(session.uri);
      if token.None? || IsBlank(token.value) {
        session.Close(PolicyViolation);
        return;
      }
      var outcome := Check(jwtUtil, users, token.value, now);
      if outcome.Err? || outcome.value.Rejected? {
        session.Close(PolicyViolation);
        return;
      }
      broadcaster.Register(session);
    }

    /** `afterConnectionClosed(session, status)`: unregisters, whatever the status. */
    method AfterConnectionClosed(session: WebSocketSession, status: CloseStatus)
      modifies broadcaster
      ensures broadcaster.sessions == old(broadcaster.sessions) - {session}
      ensures broadcaster.payloads == old(broadcaster.payloads)
    {
      broadcaster.Unregister(session);
    }
  }
}
