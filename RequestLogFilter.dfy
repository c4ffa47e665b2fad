/**
 * The capture filter: around every request outside the excluded paths it times the rest of the
 * chain and, once the chain has returned, draws an id and adds one log entry to the store.
 */
module CaptureFilter {
  import opened Wrappers
  import JvmLong
  import opened KotlinText
  import opened RequestLogRecords
  import opened Broadcasting
  import opened LogStore
  import opened JwtFilter
  import opened Jwt

  /** What the filter reads of an HTTP request. */
  datatype HttpRequest = HttpRequest(httpMethod: string, requestUri: string, remoteAddr: Option<string>)

  /** How the rest of the chain ended: it returned with a response status, or it threw. */
  datatype Downstream = Completed(status: int) | Threw

  /**
   * `shouldNotFilter(request)`: the path starts with the database console, the error pages, or
   * the log query itself.
   */
  predicate ShouldNotFilter(path: string) {
    StartsWith(path, "/h2-console") || StartsWith(path, "/error") || StartsWith(path, "/api/metrics/requests")
  }

  /** Whatever follows an excluded path is excluded too (so `/errors` is not captured). */
  lemma {:induction false} ExclusionPrefixClosed(path: string, suffix: string)
    requires ShouldNotFilter(path)
    ensures ShouldNotFilter(path + suffix)
  {
    forall p: string | StartsWith(path, p)
      ensures StartsWith(path + suffix, p)
    {
      assert (path + suffix)[..|p|] == path[..|p|];
    }
  }

  /**
   * Concrete cases: `/errors` and anything below the log query are excluded; the todo API,
   * `/api/metrics` and the stream are not.
   */
  lemma ExclusionExamples()
    ensures ShouldNotFilter("/errors")
    ensures ShouldNotFilter("/api/metrics/requests/extra")
    ensures !ShouldNotFilter("/api/todos")
    ensures !ShouldNotFilter("/api/metrics")
    ensures !ShouldNotFilter("/ws/requests")
  {
    ExclusionPrefixClosed("/error", "s");
    ExclusionPrefixClosed("/api/metrics/requests", "/extra");
    assert "/api/todos"[1] == 'a' && "/api/todos"[5] == 't';
    assert "/api/metrics"[1] == 'a' && |"/api/metrics"| < |"/api/metrics/requests"|;
    assert "/ws/requests"[1] == 'w';
  }

  /** The entry's user: the authentication's name, or `"anonymous"` when there is none. */
  function UserOf(auth: Option<Authentication>): (user: string)
    ensures auth.Some? ==> user == auth.value.name
    ensures auth.None? ==> user == "anonymous"
  {
    if auth.Some? then auth.value.name else "anonymous"
  }

  /** The entry's address: the remote address, or `"unknown"` when there is none. */
  function IpOf(request: HttpRequest): (ip: string)
    ensures request.remoteAddr.Some? ==> ip == request.remoteAddr.value
    ensures request.remoteAddr.None? ==> ip == "unknown"
  {
    if request.remoteAddr.Some? then request.remoteAddr.value else "unknown"
  }

  /** The entry a captured request produces. */
  function CaptureEntry(id: int, timestamp: Instant, request: HttpRequest, status: int,
                        startMs: int, endMs: int, auth: Option<Authentication>): (log: RequestLog)
  {
    RequestLog(id, timestamp, request.httpMethod, request.requestUri, status,
               JvmLong.Sub(endMs, startMs), UserOf(auth), IpOf(request))
  }

  /**
   * What a captured entry carries: the drawn id, the request's method and path, the response
   * status, the elapsed time around the chain, and the two fallbacks.
   */
  lemma CaptureEntryFields(id: int, timestamp: Instant, request: HttpRequest, status: int,
                           startMs: int, endMs: int, auth: Option<Authentication>)
    requires JvmLong.IsLong(endMs - startMs)
    ensures var log := CaptureEntry(id, timestamp, request, status, startMs, endMs, auth);
      && log.id == id && log.timestamp == timestamp
      && log.httpMethod == request.httpMethod && log.path == request.requestUri
      && log.status == status && log.durationMs == endMs - startMs
      && (log.user == "anonymous" <==> auth.None? || auth.value.name == "anonymous")
      && (log.ip == "unknown" <==> request.remoteAddr.None? || request.remoteAddr.value == "unknown")
  {
  }

  /** An entry captured after the JWT filter authenticated the request names that account. */
  lemma AuthenticatedEntryNamesAccount(id: int, timestamp: Instant, request: HttpRequest,
                                       status: int, startMs: int, endMs: int, user: UserDetails)
    ensures CaptureEntry(id, timestamp, request, status, startMs, endMs,
                         Some(AuthenticationOf(user))).user == user.username
  {
  }

  /**
   * Nothing observable changed: no id drawn, no entry stored, nothing broadcast, and none of
   * `subscribers` (the sessions registered before) sent to or closed.
   */
  twostate predicate Untouched(service: RequestLogService, subscribers: set<WebSocketSession>)
    reads service, service.broadcaster, subscribers
  {
    && service.counter == old(service.counter)
    && service.logs == old(service.logs)
    && service.broadcaster.payloads == old(service.broadcaster.payloads)
    && service.broadcaster.sessions == old(service.broadcaster.sessions)
    && forall s :: s in subscribers ==>
      && s.isOpen == old(s.isOpen)
      && s.closeStatus == old(s.closeStatus)
      && s.received == old(s.received)
  }

  /**
   * Exactly one capture of `log` happened: one id drawn, `log` stored in front, its response
   * broadcast once, and each of `subscribers` (the sessions registered before) kept and
   * served as one broadcast does.
   */
  twostate predicate Captured(service: RequestLogService, log: RequestLog,
                              subscribers: set<WebSocketSession>)
    reads service, service.broadcaster, subscribers
  {
    var b := service.broadcaster;
    var payload := service.objectMapper(ToResponse(log, service.instantText));
    && service.counter == NextCounter(old(service.counter))
    && service.logs == Pushed(old(service.logs), log)
    && b.payloads == old(b.payloads) + [payload]
    && b.sessions == subscribers - old(DroppedOf(subscribers))
    && forall s :: s in subscribers ==>
      && s.isOpen == old(s.isOpen)
      && s.closeStatus == old(s.closeStatus)
      && s.sendFails == old(s.sendFails)
      && s.received == (if old(Dropped(s)) then old(s.received) else old(s.received) + [payload])
  }

  class RequestLogFilter {
    const requestLogService: RequestLogService

    constructor (requestLogService: RequestLogService)
      ensures this.requestLogService == requestLogService
    {
      this.requestLogService := requestLogService;
    }

    /**
     * `doFilterInternal`: run the chain between the two clock readings `startMs` and `endMs`;
     * if it returned, draw one id and add one entry (which broadcasts it once); if it threw,
     * the exception passes through and nothing is drawn or added. `auth` is the context's
     * authentication and `timestamp` the `Instant.now()` read after the chain.
     */
    method DoFilterInternal(request: HttpRequest, downstream: Downstream, startMs: int, endMs: int,
                            auth: Option<Authentication>, timestamp: Instant)
      returns (propagated: bool)
      requires requestLogService.Valid()
      modifies requestLogService, requestLogService.broadcaster, requestLogService.broadcaster.sessions
      ensures requestLogService.Valid()
      ensures propagated <==> downstream.Threw?
      ensures downstream.Threw? ==>
        Untouched(requestLogService, old(requestLogService.broadcaster.sessions))
      ensures downstream.Completed? ==>
        Captured(requestLogService, CaptureEntry(old(requestLogService.counter), timestamp, request,
                                                 downstream.status, startMs, endMs, auth),
                 old(requestLogService.broadcaster.sessions))
    {
      if downstream.Threw? {
        return true;
      }
      var id := requestLogService.NextId();
      var log := RequestLog(id, timestamp, request.httpMethod, request.requestUri,
                            downstream.status, JvmLong.Sub(endMs, startMs), UserOf(auth), IpOf(request));
      requestLogService.Add(log);
      propagated := false;
    }

    /**
     * The request-level dispatch of the filter: an excluded path passes straight through and
     * changes nothing in the store; any other path goes through `DoFilterInternal`.
     */
    method DoFilter(request: HttpRequest, downstream: Downstream, startMs: int, endMs: int,
                    auth: Option<Authentication>, timestamp: Instant)
      returns (propagated: bool)
      requires requestLogService.Valid()
      modifies requestLogService, requestLogService.broadcaster, requestLogService.broadcaster.sessions
      ensures requestLogService.Valid()
      ensures propagated <==> downstream.Threw?
      ensures ShouldNotFilter(request.requestUri) || downstream.Threw? ==>
        Untouched(requestLogService, old(requestLogService.broadcaster.sessions))
      ensures !ShouldNotFilter(request.requestUri) && downstream.Completed? ==>
        Captured(requestLogService, CaptureEntry(old(requestLogService.counter), timestamp, request,
                                                 downstream.status, startMs, endMs, auth),
                 old(requestLogService.broadcaster.sessions))
    {
      if ShouldNotFilter(request.requestUri) {
        return downstream.Threw?;
      }
      propagated := DoFilterInternal(request, downstream, startMs, endMs, auth, timestamp);
    }
  }
}
