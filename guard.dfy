/**
 * The respond-once guard both image providers wrap around their caller's
 * callback (lib/Cloudflare.js and lib/Cloudnary.js): a `callbackSent` flag lets
 * only the first completion through, a 20-second timer answers with a timeout
 * error if nothing else did, and every call of the guard clears the timer.
 */
module Guard {
  import opened Common

  /** The `(err, data)` pair handed to a callback; `err` is the error's message when there is one. */
  datatype Completion<T> = Completion(err: Option<string>, data: Option<T>)

  /** What `download(url, cb)` calls back with: an error message and the image body, each possibly absent. */
  datatype DownloadResult = DownloadResult(err: Option<string>, imageBody: Option<Bytes>)

  /** Something that reaches the guard: a completion of the provider call, or the timer firing. */
  datatype GuardEvent<T> = Complete(completion: Completion<T>) | Timeout

  /** The completion a single event stands for, once it reaches the guard. */
  function Answer<T>(e: GuardEvent<T>, timeoutMessage: string): Completion<T>
  {
    match e
    case Complete(c) => c
    case Timeout => Completion(Some(timeoutMessage), None)
  }

  /** What the caller receives for a run of events: the first event's answer, and nothing else. */
  function Forwarded<T>(events: seq<GuardEvent<T>>, timeoutMessage: string): (r: seq<Completion<T>>)
    ensures |r| <= 1
    ensures events == [] <==> r == []
  {
    if events == [] then [] else [Answer(events[0], timeoutMessage)]
  }

  class OnceGuard<T> {
    /** `callbackSent`. */
    var callbackSent: bool
    /** Whether the timer is still pending, i.e. neither fired nor cleared. */
    var timerArmed: bool
    /** The calls of the wrapped `__callback`, in order. */
    var forwarded: seq<Completion<T>>
    const timeoutMessage: string

    /** The timer is pending exactly while nothing has been forwarded, and at most one call is forwarded. */
    ghost predicate Valid()
      reads this
    {
      && |forwarded| <= 1
      && (callbackSent <==> |forwarded| == 1)
      && (timerArmed <==> !callbackSent)
    }

    /** The state just after the provider function is entered: flag down, timer set. */
    constructor(timeoutMessage: string)
      ensures Valid()
      ensures !callbackSent && timerArmed && forwarded == []
      ensures this.timeoutMessage == timeoutMessage
    {
      callbackSent := false;
      timerArmed := true;
      forwarded := [];
      this.timeoutMessage := timeoutMessage;
    }

    /** `callback(err, data)`: forwards only if nothing was forwarded before, and always clears the timer. */
    method Callback(c: Completion<T>)
      requires Valid()
      modifies this
      ensures Valid()
      ensures callbackSent && !timerArmed
      ensures forwarded == if old(callbackSent) then old(forwarded) else old(forwarded) + [c]
    {
      if !callbackSent {
        callbackSent := true;
        forwarded := forwarded + [c];
      }
      timerArmed := false;
    }

    /** The timer's handler: a pending timer calls the guard with the timeout error; a cleared one never runs. */
    method Fire()
      requires Valid()
      modifies this
      ensures Valid()
      ensures old(timerArmed) ==>
        callbackSent && !timerArmed && forwarded == old(forwarded) + [Completion(Some(timeoutMessage), None)]
      ensures !old(timerArmed) ==>
        callbackSent == old(callbackSent) && timerArmed == old(timerArmed) && forwarded == old(forwarded)
    {
      if timerArmed {
        Callback(Completion(Some(timeoutMessage), None));
      }
    }

    /** Delivers one event to the guard. */
    method Deliver(e: GuardEvent<T>)
      requires Valid()
      modifies this
      ensures Valid()
      ensures forwarded == if old(callbackSent) then old(forwarded) else old(forwarded) + [Answer(e, timeoutMessage)]
      ensures !timerArmed
    {
      match e
      case Complete(c) =>
        Callback(c);
      case Timeout =>
        Fire();
    }
  }

  /** A fresh guard fed a run of events forwards exactly the answer of the first one. */
  method RunGuard<T>(timeoutMessage: string, events: seq<GuardEvent<T>>) returns (forwarded: seq<Completion<T>>)
    ensures forwarded == Forwarded(events, timeoutMessage)
  {
    var guard := new OnceGuard<T>(timeoutMessage);
    for i := 0 to |events|
      invariant guard.Valid()
      invariant guard.timeoutMessage == timeoutMessage
      invariant guard.forwarded == Forwarded(events[..i], timeoutMessage)
      invariant guard.callbackSent <==> i > 0
    {
      guard.Deliver(events[i]);
    }
    assert events[..|events|] == events;
    forwarded := guard.forwarded;
  }

  /** When only the timer answers, the caller receives exactly one timeout error. */
  lemma OnlyTimeoutAnswers<T>(events: seq<GuardEvent<T>>, timeoutMessage: string)
    requires events != [] && events[0] == Timeout
    ensures Forwarded(events, timeoutMessage) == [Completion(Some(timeoutMessage), None)]
  {
  }

  /** Later events never change what the caller received once something has been forwarded. */
  lemma LaterEventsIgnored<T>(events: seq<GuardEvent<T>>, later: seq<GuardEvent<T>>, timeoutMessage: string)
    requires events != []
    ensures Forwarded(events + later, timeoutMessage) == Forwarded(events, timeoutMessage)
  {
    assert (events + later)[0] == events[0];
  }
}
