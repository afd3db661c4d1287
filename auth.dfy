/**
 * lib/Auth.js: credentials are checked against the Store API through a
 * module-level FIFO queue. Calling the module only queues the request; a
 * periodic tick takes at most one request from the head and sends it, and the
 * reply's HTTP status is turned into the `(err, authRes)` pair of the callback.
 */
module Auth {
  import opened Common
  import opened Text

  /** The tuple queued by one call: store id, user id, access token and the callback's identity. */
  datatype AuthRequest = AuthRequest(storeId: nat, myId: string, accessToken: string, callbackId: nat)

  /** The second callback argument: `true`/`false`, the response object, or absent. */
  datatype AuthRes = Authorized(ok: bool) | ResponseObject(statusCode: nat) | NoResponse

  /** The arguments `sendRequest` passes to the callback; `err` is the error's message when there is one. */
  datatype AuthReply = AuthReply(err: Option<string>, res: AuthRes)

  /** What `https.get` produces: a response with a status code, or a request error. */
  datatype HttpResult = Response(statusCode: nat) | NetworkError(message: string)

  /** The message of the error built for an unexpected status. */
  function UnexpectedStatusMessage(statusCode: nat): string
  {
    "Unexpected response status " + Decimal(statusCode) + " from Store API"
  }

  /** The message of an unexpected-status error names the status code. */
  lemma UnexpectedStatusNamesCode(statusCode: nat)
    ensures Contains(UnexpectedStatusMessage(statusCode), Decimal(statusCode))
  {
    ContainsInfix("Unexpected response status ", Decimal(statusCode), " from Store API");
  }

  /** The branch on the reply of the Store API in `sendRequest`. */
  function Classify(result: HttpResult): (reply: AuthReply)
    ensures reply == AuthReply(None, Authorized(true)) <==> result.Response? && 200 <= result.statusCode < 300
    ensures reply == AuthReply(None, Authorized(false)) <==> result == Response(401)
    ensures reply.err.None? <==> result.Response? && (200 <= result.statusCode < 300 || result.statusCode == 401)
    ensures result.Response? && reply.err.Some? ==>
      reply.res == ResponseObject(result.statusCode) && Contains(reply.err.value, Decimal(result.statusCode))
    ensures result.NetworkError? ==> reply == AuthReply(Some(result.message), NoResponse)
  {
    match result
    case Response(code) =>
      if 200 <= code < 300 then AuthReply(None, Authorized(true))
      else if code == 401 then AuthReply(None, Authorized(false))
      else
        UnexpectedStatusNamesCode(code);
        AuthReply(Some(UnexpectedStatusMessage(code)), ResponseObject(code))
    case NetworkError(message) => AuthReply(Some(message), NoResponse)
  }

  /** The headers of the request sent to the Store API; the numeric store id goes out in decimal. */
  function RequestHeaders(req: AuthRequest): map<string, string>
  {
    map["X-Store-ID" := Decimal(req.storeId), "X-My-ID" := req.myId, "X-Access-Token" := req.accessToken]
  }

  /** The request on the wire carries exactly the queued credentials: the store id parses back to itself. */
  lemma HeadersCarryRequest(req: AuthRequest)
    ensures var h := RequestHeaders(req);
      && h.Keys == {"X-Store-ID", "X-My-ID", "X-Access-Token"}
      && ParseInt(h["X-Store-ID"]) == Some(req.storeId)
      && h["X-My-ID"] == req.myId && h["X-Access-Token"] == req.accessToken
  {
    var h := RequestHeaders(req);
    assert h["X-Store-ID"] == Decimal(req.storeId);
    ParseDecimal(req.storeId);
  }

  /** `requestsQueue`: the requests waiting to be sent, head first. */
  class RequestQueue {
    var requests: seq<AuthRequest>

    constructor()
      ensures requests == []
    {
      requests := [];
    }

    /** The module's export: the request is appended and nothing is sent. */
    method Push(req: AuthRequest)
      modifies this
      ensures requests == old(requests) + [req]
    {
      requests := requests + [req];
    }

    /** One interval tick: the head is shifted off and handed to `sendRequest`, if there is one. */
    method Tick() returns (sent: Option<AuthRequest>)
      modifies this
      ensures old(requests) == [] ==> sent.None? && requests == []
      ensures old(requests) != [] ==> sent == Some(old(requests)[0]) && requests == old(requests)[1..]
    {
      if requests == [] {
        sent := None;
      } else {
        sent := Some(requests[0]);
        requests := requests[1..];
      }
    }
  }

  /** Something that happens to the queue: a call of the module, or a tick of the interval. */
  datatype QueueEvent = Call(req: AuthRequest) | Tick

  /** The requests queued by a run of events, in call order. */
  function Pushes(events: seq<QueueEvent>): seq<AuthRequest>
  {
    if events == [] then []
    else
      var last := events[|events| - 1];
      Pushes(events[..|events| - 1]) + (if last.Call? then [last.req] else [])
  }

  function TickCount(events: seq<QueueEvent>): nat
  {
    if events == [] then 0
    else TickCount(events[..|events| - 1]) + (if events[|events| - 1].Tick? then 1 else 0)
  }

  /**
   * The requests sent and the requests still waiting after a run of events.
   * Together they are exactly the queued requests in call order: nothing is
   * lost, duplicated or reordered, and at most one request goes out per tick.
   */
  function Drain(events: seq<QueueEvent>): (r: (seq<AuthRequest>, seq<AuthRequest>))
    ensures r.0 + r.1 == Pushes(events)
    ensures |r.0| <= TickCount(events)
  {
    if events == [] then ([], [])
    else
      var prev := Drain(events[..|events| - 1]);
      var sent := prev.0;
      var waiting := prev.1;
      match events[|events| - 1]
      case Call(req) =>
        assert sent + (waiting + [req]) == (sent + waiting) + [req];
        (sent, waiting + [req])
      case Tick =>
        if waiting == [] then (sent, waiting)
        else
          assert (sent + [waiting[0]]) + waiting[1..] == sent + waiting;
          (sent + [waiting[0]], waiting[1..])
  }

  /** A run of `n` ticks with no calls. */
  function Ticks(n: nat): (r: seq<QueueEvent>)
    ensures |r| == n && forall i :: 0 <= i < n ==> r[i] == Tick
  {
    seq(n, i => Tick)
  }

  /** One tick after a run of events sends the head of what was waiting, if anything was. */
  lemma DrainTick(events: seq<QueueEvent>)
    ensures var before := Drain(events);
      Drain(events + [Tick])
        == if before.1 == [] then before else (before.0 + [before.1[0]], before.1[1..])
  {
    assert (events + [Tick])[..|events|] == events;
  }

  lemma SliceStep<T>(s: seq<T>, k: nat)
    requires k < |s|
    ensures s[k..][0] == s[k] && s[..k] + [s[k]] == s[..k + 1] && s[k..][1..] == s[k + 1..]
  {
  }

  lemma TicksSnoc(events: seq<QueueEvent>, n: nat)
    requires n > 0
    ensures events + Ticks(n) == (events + Ticks(n - 1)) + [Tick]
  {
    assert Ticks(n) == Ticks(n - 1) + [Tick];
  }

  /** How many of `waiting` requests `n` ticks send. */
  function SentBy(n: nat, waiting: seq<AuthRequest>): (k: nat)
    ensures k <= |waiting|
  {
    if n <= |waiting| then n else |waiting|
  }

  /** With no new calls, `n` ticks send the first `n` waiting requests; enough ticks empty the queue. */
  lemma {:induction false} TicksSendWaiting(events: seq<QueueEvent>, n: nat)
    ensures Drain(events + Ticks(n)).0 == Drain(events).0 + Drain(events).1[..SentBy(n, Drain(events).1)]
    ensures Drain(events + Ticks(n)).1 == Drain(events).1[SentBy(n, Drain(events).1)..]
  {
    if n == 0 {
      assert events + Ticks(0) == events;
    } else {
      var before := Drain(events);
      var prev := events + Ticks(n - 1);
      TicksSendWaiting(events, n - 1);
      TicksSnoc(events, n);
      TickAfterTicks(before, prev, SentBy(n - 1, before.1));
      assert SentBy(n, before.1) == if SentBy(n - 1, before.1) < |before.1| then SentBy(n - 1, before.1) + 1 else SentBy(n - 1, before.1);
    }
  }

  /** The inductive step: one more tick after `k` sent requests sends the next waiting one, if any. */
  lemma TickAfterTicks(before: (seq<AuthRequest>, seq<AuthRequest>), prev: seq<QueueEvent>, k: nat)
    requires k <= |before.1|
    requires Drain(prev).0 == before.0 + before.1[..k] && Drain(prev).1 == before.1[k..]
    ensures var k' := if k < |before.1| then k + 1 else k;
      Drain(prev + [Tick]).0 == before.0 + before.1[..k'] && Drain(prev + [Tick]).1 == before.1[k'..]
  {
    DrainTick(prev);
    if k < |before.1| {
      var w := before.1;
      SliceStep(w, k);
      assert (before.0 + w[..k]) + [w[k]] == before.0 + (w[..k] + [w[k]]);
    }
  }

  /** Runs the queue over a sequence of events and collects what each tick sends. */
  method RunQueue(events: seq<QueueEvent>) returns (sent: seq<AuthRequest>, waiting: seq<AuthRequest>)
    ensures (sent, waiting) == Drain(events)
    ensures sent + waiting == Pushes(events)
  {
    var queue := new RequestQueue();
    sent := [];
    for i := 0 to |events|
      invariant (sent, queue.requests) == Drain(events[..i])
    {
      assert events[..i + 1][..i] == events[..i];
      match events[i]
      case Call(req) =>
        queue.Push(req);
      case Tick =>
        var out := queue.Tick();
        if out.Some? {
          sent := sent + [out.value];
        }
    }
    assert events[..|events|] == events;
    waiting := queue.requests;
  }
}
