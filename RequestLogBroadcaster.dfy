/**
 * The registry of live stream subscribers and the fan-out of one payload to all of them.
 * The concurrent key set of the source is a plain `set`; each method is one atomic step.
 */
module Broadcasting {
  import opened Wrappers

  /** The close codes the core uses. */
  datatype CloseStatus = PolicyViolation | Normal | Other(code: int)

  /** The handshake URI of a connection; only its (decoded) query matters here. */
  datatype Uri = Uri(query: Option<string>)

  /**
   * One WebSocket connection, seen from the server. `sendFails` is the oracle that says
   * whether the transport throws on the next `sendMessage`; `received` is what the client has
   * been sent so far.
   */
  class WebSocketSession {
    const uri: Option<Uri>
    var isOpen: bool
    var closeStatus: Option<CloseStatus>
    var sendFails: bool
    var received: seq<string>

    constructor (uri: Option<Uri>, sendFails: bool)
      ensures this.uri == uri && this.sendFails == sendFails
      ensures isOpen && closeStatus == None && received == []
    {
      this.uri := uri;
      this.sendFails := sendFails;
      isOpen := true;
      closeStatus := None;
      received := [];
    }

    /** `sendMessage(TextMessage(text))`: delivers `text`, or reports that the send threw. */
    method SendMessage(text: string) returns (delivered: bool)
      modifies this
      ensures delivered == !sendFails
      ensures received == if delivered then old(received) + [text] else old(received)
      ensures isOpen == old(isOpen) && closeStatus == old(closeStatus) && sendFails == old(sendFails)
    {
      delivered := !sendFails;
      if delivered {
        received := received + [text];
      }
    }

    /** `close(status)`: the connection is no longer open and remembers why. */
    method Close(status: CloseStatus)
      modifies this
      ensures !isOpen && closeStatus == Some(status)
      ensures received == old(received) && sendFails == old(sendFails)
    {
      isOpen := false;
      closeStatus := Some(status);
    }
  }

  /** A session that `broadcast` drops: it is closed, or sending to it throws. */
  predicate Dropped(s: WebSocketSession)
    reads s
  {
    !s.isOpen || s.sendFails
  }

  /** The sessions of `ss` that a broadcast drops. */
  ghost function DroppedOf(ss: set<WebSocketSession>): (d: set<WebSocketSession>)
    reads ss
    ensures d <= ss
    ensures forall s :: s in ss ==> (s in d <==> Dropped(s))
  {
    set s | s in ss && Dropped(s)
  }

  class RequestLogBroadcaster {
    /** The registered subscribers. */
    var sessions: set<WebSocketSession>
    /** Every payload ever passed to `Broadcast`, in call order. */
    ghost var payloads: seq<string>

    constructor ()
      ensures sessions == {} && payloads == []
    {
      sessions := {};
      payloads := [];
    }

    /** `register(session)`: `session` becomes a member; a second registration adds nothing. */
    method Register(session: WebSocketSession)
      modifies this
      ensures sessions == old(sessions) + {session}
      ensures payloads == old(payloads)
    {
      sessions := sessions + {session};
    }

    /** `unregister(session)`: `session` is no longer a member; an absent one changes nothing. */
    method Unregister(session: WebSocketSession)
      modifies this
      ensures sessions == old(sessions) - {session}
      ensures payloads == old(payloads)
    {
      sessions := sessions - {session};
    }

    /**
     * `broadcast(payload)`: every registered session that is open and accepts the send gets
     * `payload` once and stays; a closed one gets nothing and is removed; one whose send
     * throws is removed and the walk goes on. Nothing is thrown to the caller, no session is
     * added, and the sessions' own state (open, close status, oracle) is untouched.
     */
    method Broadcast(payload: string)
      modifies this, sessions
      ensures sessions == old(sessions) - DroppedOf(old(sessions))
      ensures payloads == old(payloads) + [payload]
      ensures forall s :: s in old(sessions) ==>
        && s.isOpen == old(s.isOpen)
        && s.closeStatus == old(s.closeStatus)
        && s.sendFails == old(s.sendFails)
        && s.received == (if old(Dropped(s)) then old(s.received) else old(s.received) + [payload])
    {
      ghost var initial := sessions;
      var pending := sessions;
      while pending != {}
        invariant pending <= initial && payloads == old(payloads)
        invariant sessions == initial - DroppedOf(initial - pending)
        invariant forall s :: s in initial ==>
          && s.isOpen == old(s.isOpen)
          && s.closeStatus == old(s.closeStatus)
          && s.sendFails == old(s.sendFails)
        invariant forall s :: s in initial && s !in pending ==>
          s.received == (if Dropped(s) then old(s.received) else old(s.received) + [payload])
        invariant forall s :: s in pending ==> s.received == old(s.received)
        decreases pending
      {
        var session :| session in pending;
        pending := pending - {session};
        if !session.isOpen {
          sessions := sessions - {session};
          continue;
        }
        var delivered := session.SendMessage(payload);
        if !delivered {
          sessions := sessions - {session};
        }
      }
      payloads := payloads + [payload];
    }
  }
}
