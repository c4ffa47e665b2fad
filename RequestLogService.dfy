/**
 * The bounded, newest-first history of captured requests, its id counter, and its read side.
 * Each `synchronized` section and the atomic counter step is one sequential step here.
 */
module LogStore {
  import opened Wrappers
  import JvmLong
  import opened RequestLogRecords
  import opened Broadcasting

  /** `maxEntries`: the store never holds more than this many entries. */
  const MaxEntries: nat := 300

  function Min(a: int, b: int): int {
    if a <= b then a else b
  }

  /** The first `min(n, |s|)` elements of `s` (Kotlin's `take` for `n >= 0`). */
  function Take<T>(s: seq<T>, n: nat): (r: seq<T>)
    ensures |r| == Min(n, |s|)
    ensures r <= s
  {
    s[..Min(n, |s|)]
  }

  /** The store after one `add(log)`: `log` in front, then as many of the old entries as fit. */
  function Pushed(logs: seq<RequestLog>, log: RequestLog): (r: seq<RequestLog>)
  {
    Take([log] + logs, MaxEntries)
  }

  /** `Pushed` puts the new entry first, keeps at most `MaxEntries`, and drops only the oldest. */
  lemma PushedShape(logs: seq<RequestLog>, log: RequestLog)
    ensures var r := Pushed(logs, log);
      && |r| == Min(|logs| + 1, MaxEntries)
      && r[0] == log
      && r[1..] == logs[..Min(|logs|, MaxEntries - 1)]
  {
  }

  /** The store after a series of `add` calls, the first of `logs` added first. */
  function AddAll(store: seq<RequestLog>, logs: seq<RequestLog>): seq<RequestLog>
    decreases |logs|
  {
    if logs == [] then store
    else AddAll(Pushed(store, logs[0]), logs[1..])
  }

  /** `logs` in the opposite order. */
  function Reverse<T>(s: seq<T>): (r: seq<T>)
    ensures |r| == |s|
    ensures forall i :: 0 <= i < |s| ==> r[i] == s[|s| - 1 - i]
  {
    if s == [] then [] else Reverse(s[1..]) + [s[0]]
  }

  /** Truncating twice to the same bound is truncating once, wherever the inner cut sits. */
  lemma TakeAppendTake<T>(a: seq<T>, b: seq<T>, n: nat)
    ensures Take(a + Take(b, n), n) == Take(a + b, n)
  {
    var lhs, rhs := Take(a + Take(b, n), n), Take(a + b, n);
    assert |lhs| == |rhs|;
    forall i | 0 <= i < |lhs|
      ensures lhs[i] == rhs[i]
    {
      if i >= |a| {
        assert lhs[i] == Take(b, n)[i - |a|];
      }
    }
  }

  /**
   * After adding `logs` one by one to `store`, the store holds the newest `MaxEntries` of all
   * entries, newest first: eviction depends only on position, never on content.
   */
  lemma {:induction false} AddAllKeepsNewest(store: seq<RequestLog>, logs: seq<RequestLog>)
    requires |store| <= MaxEntries
    ensures AddAll(store, logs) == Take(Reverse(logs) + store, MaxEntries)
    decreases |logs|
  {
    if logs != [] {
      var e, rest := logs[0], logs[1..];
      AddAllKeepsNewest(Pushed(store, e), rest);
      TakeAppendTake(Reverse(rest), [e] + store, MaxEntries);
      assert Reverse(logs) == Reverse(rest) + [e];
      calc {
        AddAll(store, logs);
        AddAll(Pushed(store, e), rest);
        Take(Reverse(rest) + Take([e] + store, MaxEntries), MaxEntries);
        Take(Reverse(rest) + ([e] + store), MaxEntries);
        { assert Reverse(rest) + ([e] + store) == Reverse(logs) + store; }
        Take(Reverse(logs) + store, MaxEntries);
      }
    }
  }

  /**
   * From an empty store, more than `MaxEntries` adds leave exactly the last `MaxEntries`
   * entries added, newest first.
   */
  lemma FromEmptyKeepsLast(logs: seq<RequestLog>)
    requires |logs| >= MaxEntries
    ensures |AddAll([], logs)| == MaxEntries
    ensures forall i :: 0 <= i < MaxEntries ==> AddAll([], logs)[i] == logs[|logs| - 1 - i]
  {
    AddAllKeepsNewest([], logs);
    assert Reverse(logs) + [] == Reverse(logs);
  }

  /**
   * When all entries added are distinct, an entry is still stored iff it is one of the last
   * `MaxEntries` added: the oldest are the ones evicted.
   */
  lemma StoredIffRecent(logs: seq<RequestLog>, i: int)
    requires forall j, k :: 0 <= j < k < |logs| ==> logs[j] != logs[k]
    requires 0 <= i < |logs|
    ensures logs[i] in AddAll([], logs) <==> i >= |logs| - MaxEntries
  {
    AddAllKeepsNewest([], logs);
    var r := AddAll([], logs);
    assert Reverse(logs) + [] == Reverse(logs);
    assert r == Take(Reverse(logs), MaxEntries);
    if i >= |logs| - MaxEntries {
      assert r[|logs| - 1 - i] == logs[i];
    }
  }

  /** `list(limit)` failing: Kotlin's `take` throws for a negative count. */
  datatype ListError = NegativeLimit(limit: int)

  /** `toResponse(log)`: every field copied, the timestamp rendered by `instantText`. */
  function ToResponse(log: RequestLog, instantText: Instant -> string): (r: RequestLogResponse)
  {
    RequestLogResponse(log.id, instantText(log.timestamp), log.httpMethod, log.path,
                       log.status, log.durationMs, log.user, log.ip)
  }

  /**
   * No information is lost in the response: two logs with the same response are equal as
   * long as the timestamp rendering is injective.
   */
  lemma ToResponseInjective(a: RequestLog, b: RequestLog, instantText: Instant -> string)
    requires forall x, y :: instantText(x) == instantText(y) ==> x == y
    requires ToResponse(a, instantText) == ToResponse(b, instantText)
    ensures a == b
  {
  }

  /** Kotlin's `Long`-valued `counter.getAndIncrement()` step, as the value it leaves behind. */
  function NextCounter(counter: int): int {
    JvmLong.Add(counter, 1)
  }

  /** The ids that `n` successive `nextId()` calls return, starting from counter value `c`. */
  function Ids(c: int, n: nat): (ids: seq<int>)
    ensures |ids| == n
    decreases n
  {
    if n == 0 then [] else [c] + Ids(NextCounter(c), n - 1)
  }

  /**
   * As long as the counter does not pass `Long.MAX_VALUE`, the `i`-th id drawn is `c + i`:
   * consecutive, strictly increasing, never repeated, whatever was evicted meanwhile.
   */
  lemma {:induction false} IdsConsecutive(c: int, n: nat)
    requires JvmLong.LongMin <= c && c + n - 1 <= JvmLong.LongMax
    ensures forall i :: 0 <= i < n ==> Ids(c, n)[i] == c + i
    decreases n
  {
    if n > 1 {
      assert NextCounter(c) == c + 1;
      IdsConsecutive(c + 1, n - 1);
    }
  }

  /** From a fresh service, the first `n` ids are `1, 2, …, n`, pairwise distinct. */
  lemma FreshIds(n: nat)
    requires n <= JvmLong.LongMax
    ensures forall i :: 0 <= i < n ==> Ids(1, n)[i] == i + 1
    ensures forall i, j :: 0 <= i < j < n ==> Ids(1, n)[i] < Ids(1, n)[j]
  {
    IdsConsecutive(1, n);
  }

  class RequestLogService {
    /** Jackson's `writeValueAsString` on a response (foreign code). */
    const objectMapper: RequestLogResponse -> string
    /** `Instant.toString()` (foreign code). */
    const instantText: Instant -> string
    const broadcaster: RequestLogBroadcaster
    /** The next id `nextId` hands out. */
    var counter: int
    /** The history, newest first. */
    var logs: seq<RequestLog>

    /** The store is bounded and the counter is a `Long`. */
    ghost predicate Valid()
      reads this
    {
      |logs| <= MaxEntries && JvmLong.IsLong(counter)
    }

    constructor (objectMapper: RequestLogResponse -> string, instantText: Instant -> string,
                 broadcaster: RequestLogBroadcaster)
      ensures Valid()
      ensures this.objectMapper == objectMapper && this.instantText == instantText
      ensures this.broadcaster == broadcaster
      ensures counter == 1 && logs == []
    {
      this.objectMapper := objectMapper;
      this.instantText := instantText;
      this.broadcaster := broadcaster;
      counter := 1;
      logs := [];
    }

    /** `nextId()`: returns the counter and advances it by one (wrapping as a `Long`). */
    method NextId() returns (id: int)
      requires Valid()
      modifies this
      ensures Valid()
      ensures id == old(counter)
      ensures counter == NextCounter(old(counter))
      ensures old(counter) < JvmLong.LongMax ==> counter == id + 1
      ensures logs == old(logs)
    {
      id := counter;
      counter := NextCounter(counter);
    }

    /**
     * `add(log)`: puts `log` first and evicts from the back while the store is over capacity
     * (one critical section); then, outside it, broadcasts the serialised entry exactly once.
     */
    method Add(log: RequestLog)
      requires Valid()
      modifies this, broadcaster, broadcaster.sessions
      ensures Valid()
      ensures logs == Pushed(old(logs), log)
      ensures logs[0] == log && |logs| <= MaxEntries
      ensures counter == old(counter)
      ensures broadcaster.payloads == old(broadcaster.payloads) + [objectMapper(ToResponse(log, instantText))]
      ensures broadcaster.sessions == old(broadcaster.sessions) - DroppedOf(old(broadcaster.sessions))
      ensures forall s :: s in old(broadcaster.sessions) ==>
        && s.isOpen == old(s.isOpen)
        && s.closeStatus == old(s.closeStatus)
        && s.sendFails == old(s.sendFails)
        && s.received == (if old(Dropped(s)) then old(s.received)
                          else old(s.received) + [objectMapper(ToResponse(log, instantText))])
    {
      ghost var before := logs;
      logs := [log] + logs;
      while |logs| > MaxEntries
        modifies this`logs
        invariant Min(|before| + 1, MaxEntries) <= |logs| <= |before| + 1
        invariant logs == ([log] + before)[..|logs|]
        decreases |logs|
      {
        logs := logs[..|logs| - 1];
      }
      var payload := objectMapper(ToResponse(log, instantText));
      broadcaster.Broadcast(payload);
    }

    /**
     * `list(limit)`: the first `limit` entries (all of them without a limit), newest first,
     * as a copy; a negative limit throws.
     */
    function List(limit: Option<int>): (r: Result<seq<RequestLog>, ListError>)
      reads this
      ensures r.Err? <==> limit.Some? && limit.value < 0
      ensures r.Err? ==> r.error == NegativeLimit(limit.value)
      ensures r.Ok? ==> r.value <= logs
      ensures r.Ok? && limit.None? ==> r.value == logs
      ensures r.Ok? && limit.Some? ==> |r.value| == Min(limit.value, |logs|)
    {
      var max := if limit.Some? then limit.value else |logs|;
      if max < 0 then Err(NegativeLimit(max)) else Ok(Take(logs, max))
    }

    /** `listResponses(limit)`: `list(limit)` with every entry turned into its response. */
    function ListResponses(limit: Option<int>): (r: Result<seq<RequestLogResponse>, ListError>)
      reads this
      ensures r.Err? <==> List(limit).Err?
      ensures r.Err? ==> r.error == List(limit).error
      ensures r.Ok? ==> |r.value| == |List(limit).value|
      ensures r.Ok? ==> forall i :: 0 <= i < |r.value| ==>
        r.value[i] == ToResponse(List(limit).value[i], instantText)
    {
      match List(limit)
      case Err(e) => Err(e)
      case Ok(entries) => Ok(seq(|entries|, i requires 0 <= i < |entries| => ToResponse(entries[i], instantText)))
    }
  }
}
