// One request with bounded retry before the stream, then its body decoded.
module Executor {
  import opened Prelude
  import opened Messages
  import opened SseSpec
  import opened Sse
  import opened SseTheorems
  import opened Http

  datatype ExecutorEvent =
    | Retry(attempt: nat, maxAttempts: nat, delay: nat, kind: ErrorKind)
    | Established(requestId: Option<string>)
    | Event(sse: SseEvent)
    | Eof
    | Failed(kind: ErrorKind, cause: FailureCause)

  datatype FailureCause =
    | Provider(detail: string)
    | RetryAfterBeyondCap(requested: nat)
    | StreamBroken(detail: string)
    | Oversized(limit: nat)

  // One piece of a response body, or the connection breaking. The body closes normally
  // after the last piece.
  datatype BodyStep = Chunk(bytes: seq<Byte>) | Broken(detail: string)

  // How one send ends.
  datatype SendOutcome =
    | Answered(requestId: Option<string>, body: seq<BodyStep>)
    | Refused(kind: ErrorKind, retryAfter: Option<nat>, detail: string, hasResponse: bool)

  // What an observer is told.
  datatype Observation = BeforeSend(attempt: nat) | OnResponse(attempt: nat)

  // A request's world: the outcome of each send, and the jitter's random numbers.
  datatype World = World(sends: nat -> SendOutcome, draws: nat -> nat)

  // What happens up to the response or the terminal failure.
  datatype Opened = Opened(events: seq<ExecutorEvent>, observed: seq<Observation>, response: Option<SendOutcome>)

  function Responded(outcome: SendOutcome, attempt: nat): seq<Observation> {
    if outcome.Answered? || outcome.hasResponse then [OnResponse(attempt + 1)] else []
  }

  // One send: what is yielded and observed, the response, and whether another send follows.
  datatype Tried = Tried(events: seq<ExecutorEvent>, observed: seq<Observation>, response: Option<SendOutcome>,
                         again: bool)

  function TryOnce(world: World, attempt: nat, maxRetries: nat, cap: nat): (t: Tried)
    ensures t.again ==> attempt < maxRetries && t.response == None
    ensures t.response.Some? ==> t.response.value.Answered?
  {
    var outcome := world.sends(attempt);
    var seen := [BeforeSend(attempt + 1)] + Responded(outcome, attempt);
    match outcome
    case Answered(_, _) => Tried([], seen, Some(outcome), false)
    case Refused(kind, retryAfter, detail, _) =>
      if Retryable(kind) && attempt < maxRetries then
        match RetryDelay(attempt + 1, retryAfter, cap, world.draws(attempt))
        case Sleep(delay) => Tried([ExecutorEvent.Retry(attempt + 1, maxRetries + 1, delay, kind)], seen, None, true)
        case ExceedsCap(requested) =>
          Tried([ExecutorEvent.Failed(RateLimited, RetryAfterBeyondCap(requested))], seen, None, false)
      else Tried([ExecutorEvent.Failed(kind, Provider(detail))], seen, None, false)
  }

  // The sends from `attempt` on.
  function Open(world: World, attempt: nat, maxRetries: nat, cap: nat): (o: Opened)
    ensures o.response.Some? ==> o.response.value.Answered?
    decreases maxRetries - attempt
  {
    var t := TryOnce(world, attempt, maxRetries, cap);
    if t.again then
      var rest := Open(world, attempt + 1, maxRetries, cap);
      Opened(t.events + rest.events, t.observed + rest.observed, rest.response)
    else Opened(t.events, t.observed, t.response)
  }

  function EventsOf(events: seq<SseEvent>): seq<ExecutorEvent> {
    if events == [] then [] else [Event(events[0])] + EventsOf(events[1..])
  }

  const OVERSIZED: ExecutorEvent := ExecutorEvent.Failed(ErrorKind.Protocol, Oversized(MAX_EVENT_DATA_BYTES))

  // The body, decoded as it arrives.
  function ReadBody(decode: Decode, st: State, body: seq<BodyStep>): seq<ExecutorEvent>
    decreases |body|
  {
    if body == [] then
      match Finished(decode, st)
      case Ok(events) => EventsOf(events) + [Eof]
      case Err(_) => [OVERSIZED]
    else if body[0].Broken? then [ExecutorEvent.Failed(StreamInterrupted, StreamBroken(body[0].detail))]
    else
      var (next, r) := Pushed(decode, st, body[0].bytes);
      match r
      case Ok(events) => EventsOf(events) + ReadBody(decode, next, body[1..])
      case Err(_) => [OVERSIZED]
  }

  // The response, if there is one, and its body.
  function Continued(decode: Decode, tried: Opened): Opened
    requires tried.response.Some? ==> tried.response.value.Answered?
  {
    if tried.response.None? then tried
    else
      tried.(events := tried.events + [Established(tried.response.value.requestId)]
                        + ReadBody(decode, INITIAL, tried.response.value.body))
  }

  function Executed(decode: Decode, world: World, maxRetries: nat, maxRetryDelay: Option<nat>): Opened {
    Continued(decode, Open(world, 0, maxRetries, maxRetryDelay.GetOr(DEFAULT_MAX_RETRY_DELAY)))
  }

  // ---------------------------------------------------------------- the executor

  method Execute(decode: Decode, world: World, maxRetries: nat, maxRetryDelay: Option<nat>)
    returns (out: seq<ExecutorEvent>, observed: seq<Observation>)
    ensures out == Executed(decode, world, maxRetries, maxRetryDelay).events
    ensures observed == Executed(decode, world, maxRetries, maxRetryDelay).observed
  {
    var cap := maxRetryDelay.GetOr(DEFAULT_MAX_RETRY_DELAY);
    var attempt := 0;
    var response: Option<SendOutcome> := None;
    out, observed := [], [];
    ghost var whole := Open(world, 0, maxRetries, cap);
    while true
      invariant attempt <= maxRetries
      invariant Continues(whole, out, observed, Open(world, attempt, maxRetries, cap))
      decreases maxRetries - attempt
    {
      var yielded, seen, again;
      yielded, seen, response, again := Send(world, attempt, maxRetries, cap);
      ContinuesOn(whole, out, observed, world, attempt, maxRetries, cap);
      out, observed := out + yielded, observed + seen;
      if !again {
        break;
      }
      attempt := attempt + 1;
    }
    if response.Some? {
      out := out + [Established(response.value.requestId)];
      var rest := DecodeBody(decode, response.value.body);
      out := out + rest;
    }
  }

  // One turn of the retry loop.
  method Send(world: World, attempt: nat, maxRetries: nat, cap: nat)
    returns (out: seq<ExecutorEvent>, observed: seq<Observation>, response: Option<SendOutcome>, again: bool)
    ensures Tried(out, observed, response, again) == TryOnce(world, attempt, maxRetries, cap)
  {
    out, response, again := [], None, false;
    observed := [BeforeSend(attempt + 1)];
    var outcome := world.sends(attempt);
    if outcome.Answered? || outcome.hasResponse {
      observed := observed + [OnResponse(attempt + 1)];
    }
    match outcome
    case Answered(_, _) => response := Some(outcome);
    case Refused(kind, retryAfter, detail, _) =>
      if Retryable(kind) && attempt < maxRetries {
        match RetryDelay(attempt + 1, retryAfter, cap, world.draws(attempt))
        case Sleep(delay) =>
          out := [ExecutorEvent.Retry(attempt + 1, maxRetries + 1, delay, kind)];
          again := true;
        case ExceedsCap(requested) => out := [ExecutorEvent.Failed(RateLimited, RetryAfterBeyondCap(requested))];
      } else {
        out := [ExecutorEvent.Failed(kind, Provider(detail))];
      }
  }

  // What is still to come continues what has been done.
  ghost predicate Continues(whole: Opened, out: seq<ExecutorEvent>, observed: seq<Observation>, rest: Opened) {
    whole == Opened(out + rest.events, observed + rest.observed, rest.response)
  }

  lemma {:induction false} ContinuesOn(whole: Opened, out: seq<ExecutorEvent>, observed: seq<Observation>, world: World,
                                       attempt: nat, maxRetries: nat, cap: nat)
    requires Continues(whole, out, observed, Open(world, attempt, maxRetries, cap))
    ensures var t := TryOnce(world, attempt, maxRetries, cap);
            if t.again then Continues(whole, out + t.events, observed + t.observed,
                                      Open(world, attempt + 1, maxRetries, cap))
            else whole == Opened(out + t.events, observed + t.observed, t.response)
  {
    var t := TryOnce(world, attempt, maxRetries, cap);
    if t.again {
      var rest := Open(world, attempt + 1, maxRetries, cap);
      assert out + (t.events + rest.events) == (out + t.events) + rest.events;
      assert observed + (t.observed + rest.observed) == (observed + t.observed) + rest.observed;
    }
  }

  // `left` is what the rest of the body still yields.
  ghost predicate Left(decode: Decode, st: State, body: seq<BodyStep>, left: seq<ExecutorEvent>) {
    forall k {:trigger Asked(k)} :: Asked(k) ==> left == ReadBody(decode, st, body)
  }

  method DecodeBody(decode: Decode, body: seq<BodyStep>) returns (out: seq<ExecutorEvent>)
    ensures out == ReadBody(decode, INITIAL, body)
  {
    var decoder := new SseDecoder(decode);
    ghost var whole := ReadBody(decode, INITIAL, body);
    ghost var left := whole;
    assert body[0..] == body;
    out := [];
    var i := 0;
    while i < |body|
      invariant 0 <= i <= |body| && decoder.Valid() && decoder.decode == decode
      invariant Left(decode, decoder.View(), body[i..], left) && whole == out + left
    {
      assert body[i..] == [body[i]] + body[i + 1..];
      ghost var before := left;
      var events, last;
      events, last, left := DecodeStep(decoder, body[i], body[i + 1..], left);
      assert out + (events + left) == (out + events) + left;
      i := i + 1;
      out := out + events;
      if last {
        return;
      }
    }
    var events := DecodeEnd(decoder, left);
    out := out + events;
  }

  // One piece of the body: of what is left, the first part is yielded.
  method DecodeStep(decoder: SseDecoder, step: BodyStep, ghost rest: seq<BodyStep>, ghost left: seq<ExecutorEvent>)
    returns (events: seq<ExecutorEvent>, last: bool, ghost after: seq<ExecutorEvent>)
    requires decoder.Valid() && Left(decoder.decode, decoder.View(), [step] + rest, left)
    modifies decoder
    ensures decoder.Valid() && left == events + after && (last ==> after == [])
    ensures !last ==> Left(decoder.decode, decoder.View(), rest, after)
  {
    assert Asked(0);
    assert ([step] + rest)[1..] == rest;
    if step.Broken? {
      return [ExecutorEvent.Failed(StreamInterrupted, StreamBroken(step.detail))], true, [];
    }
    var r := decoder.Push(step.bytes);
    match r
    case Ok(decoded) =>
      events := YieldAll(decoded);
      last, after := false, ReadBody(decoder.decode, decoder.View(), rest);
    case Err(_) => events, last, after := [OVERSIZED], true, [];
  }

  // The end of the body.
  method DecodeEnd(decoder: SseDecoder, ghost left: seq<ExecutorEvent>) returns (events: seq<ExecutorEvent>)
    requires decoder.Valid() && Left(decoder.decode, decoder.View(), [], left)
    modifies decoder
    ensures events == left
  {
    assert Asked(0);
    var r := decoder.Finish();
    match r
    case Ok(decoded) =>
      events := YieldAll(decoded);
      events := events + [Eof];
    case Err(_) => events := [OVERSIZED];
  }

  method YieldAll(events: seq<SseEvent>) returns (out: seq<ExecutorEvent>)
    ensures out == EventsOf(events)
  {
    out := [];
    var i := 0;
    while i < |events|
      invariant 0 <= i <= |events|
      invariant EventsOf(events) == out + EventsOf(events[i..])
    {
      out := out + [Event(events[i])];
      i := i + 1;
    }
  }
}
