// Every run of the executor: bounded numbered retries, then a failure or a decoded body.
module ExecutorTheorems {
  import opened Prelude
  import opened Messages
  import opened SseSpec
  import opened Sse
  import opened SseTheorems
  import opened Http
  import opened Executor

  // Retries numbered from `first`, none waiting longer than allowed.
  predicate Retries(events: seq<ExecutorEvent>, first: nat, maxRetries: nat, cap: nat) {
    forall i :: 0 <= i < |events| ==>
      && events[i].Retry? && events[i].attempt == first + i && events[i].maxAttempts == maxRetries + 1
      && Retryable(events[i].kind) && events[i].delay <= Max(cap, BACKOFF_CAP)
  }

  // The attempts sent, in order.
  function Sent(observed: seq<Observation>): seq<nat> {
    if observed == [] then []
    else (if observed[0].BeforeSend? then [observed[0].attempt] else []) + Sent(observed[1..])
  }

  function CountFrom(first: nat, n: nat): seq<nat>
    decreases n
  {
    if n == 0 then [] else [first] + CountFrom(first + 1, n - 1)
  }

  lemma {:induction false} SentAppend(a: seq<Observation>, b: seq<Observation>)
    ensures Sent(a + b) == Sent(a) + Sent(b)
    decreases |a|
  {
    if a == [] {
      assert a + b == b;
    } else {
      assert (a + b)[0] == a[0] && (a + b)[1..] == a[1..] + b;
      SentAppend(a[1..], b);
    }
  }

  lemma {:induction false} OneSendEach(world: World, attempt: nat, maxRetries: nat, cap: nat)
    ensures Sent(TryOnce(world, attempt, maxRetries, cap).observed) == [attempt + 1]
  {
    var outcome := world.sends(attempt);
    var observed := TryOnce(world, attempt, maxRetries, cap).observed;
    assert observed == [BeforeSend(attempt + 1)] + Responded(outcome, attempt);
    assert observed[1..] == Responded(outcome, attempt);
    var rest := Responded(outcome, attempt);
    assert Sent(rest) == [] by {
      if rest != [] {
        assert rest[1..] == [];
      }
    }
  }

  // Up to the response: `k` retries, then nothing or the failure; one `before_send` each.
  ghost predicate OpensWith(o: Opened, k: nat, attempt: nat, maxRetries: nat, cap: nat) {
    && attempt + k <= maxRetries
    && |o.events| == k + (if o.response.None? then 1 else 0)
    && Retries(o.events[..k], attempt + 1, maxRetries, cap)
    && (o.response.None? ==> o.events[k].Failed?)
    && Sent(o.observed) == CountFrom(attempt + 1, k + 1)
  }

  lemma {:induction false} OpenRetries(world: World, attempt: nat, maxRetries: nat, cap: nat) returns (k: nat)
    requires attempt <= maxRetries
    ensures OpensWith(Open(world, attempt, maxRetries, cap), k, attempt, maxRetries, cap)
    decreases maxRetries - attempt
  {
    var t := TryOnce(world, attempt, maxRetries, cap);
    OneSendEach(world, attempt, maxRetries, cap);
    if t.again {
      var more := OpenRetries(world, attempt + 1, maxRetries, cap);
      k := more + 1;
      RetryBounded(world, attempt, maxRetries, cap);
      SentAppend(t.observed, Open(world, attempt + 1, maxRetries, cap).observed);
      RetryFirst(t.events[0], Open(world, attempt + 1, maxRetries, cap).events, more, attempt, maxRetries, cap);
    } else {
      k := 0;
      assert CountFrom(attempt + 1, 1) == [attempt + 1] + CountFrom(attempt + 2, 0);
    }
  }

  lemma {:induction false} RetryBounded(world: World, attempt: nat, maxRetries: nat, cap: nat)
    requires TryOnce(world, attempt, maxRetries, cap).again
    ensures var t := TryOnce(world, attempt, maxRetries, cap);
            |t.events| == 1 && Retries(t.events, attempt + 1, maxRetries, cap)
  {
    var outcome := world.sends(attempt);
    DelayIsBounded(attempt + 1, outcome.retryAfter, cap, world.draws(attempt));
  }

  lemma {:induction false} RetryFirst(e: ExecutorEvent, rest: seq<ExecutorEvent>, more: nat, attempt: nat,
                                      maxRetries: nat, cap: nat)
    requires Retries([e], attempt + 1, maxRetries, cap) && more <= |rest| &&
             Retries(rest[..more], attempt + 2, maxRetries, cap)
    ensures Retries(([e] + rest)[..more + 1], attempt + 1, maxRetries, cap)
    ensures more < |rest| ==> ([e] + rest)[more + 1] == rest[more]
  {
    assert ([e] + rest)[..more + 1] == [e] + rest[..more];
    assert [e][0].Retry?;
    forall i | 0 <= i < more
      ensures ([e] + rest[..more])[i + 1] == rest[..more][i]
    {
    }
  }

  // ---------------------------------------------------------------- the body

  // The SSE events a body yields before the terminal event, and that event.
  function Yielded(decode: Decode, st: State, body: seq<BodyStep>): seq<SseEvent>
    decreases |body|
  {
    if body == [] then
      match Finished(decode, st)
      case Ok(events) => events
      case Err(_) => []
    else if body[0].Broken? then []
    else
      match Pushed(decode, st, body[0].bytes).1
      case Ok(events) => events + Yielded(decode, Pushed(decode, st, body[0].bytes).0, body[1..])
      case Err(_) => []
  }

  function Ending(decode: Decode, st: State, body: seq<BodyStep>): ExecutorEvent
    decreases |body|
  {
    if body == [] then (if Finished(decode, st).Ok? then Eof else OVERSIZED)
    else if body[0].Broken? then ExecutorEvent.Failed(StreamInterrupted, StreamBroken(body[0].detail))
    else if Pushed(decode, st, body[0].bytes).1.Ok? then Ending(decode, Pushed(decode, st, body[0].bytes).0, body[1..])
    else OVERSIZED
  }

  lemma {:induction false} EventsOfAppend(a: seq<SseEvent>, b: seq<SseEvent>)
    ensures EventsOf(a + b) == EventsOf(a) + EventsOf(b)
    decreases |a|
  {
    if a == [] {
      assert a + b == b;
    } else {
      EventsOfAppend(a[1..], b);
      assert (a + b)[1..] == a[1..] + b;
    }
  }

  lemma {:induction false} BodyParts(decode: Decode, st: State, body: seq<BodyStep>)
    ensures ReadBody(decode, st, body) == EventsOf(Yielded(decode, st, body)) + [Ending(decode, st, body)]
    ensures Ending(decode, st, body).Eof? || Ending(decode, st, body).Failed?
    decreases |body|
  {
    assert EventsOf([]) + [Ending(decode, st, body)] == [Ending(decode, st, body)];
    if body != [] && body[0].Chunk? && Pushed(decode, st, body[0].bytes).1.Ok? {
      var (next, r) := Pushed(decode, st, body[0].bytes);
      BodyParts(decode, next, body[1..]);
      EventsOfAppend(r.value, Yielded(decode, next, body[1..]));
    }
  }

  // The bytes that arrive before the connection breaks.
  function Arrived(body: seq<BodyStep>): seq<Byte> {
    if body == [] || body[0].Broken? then [] else body[0].bytes + Arrived(body[1..])
  }

  predicate Intact(body: seq<BodyStep>) {
    forall i :: 0 <= i < |body| ==> body[i].Chunk?
  }

  // What was yielded, against the one-pass decoding: exact where the body closed normally,
  // and otherwise a prefix of the decoding of any continuation `beyond`.
  ghost predicate Faithful(decode: Decode, whole: seq<Byte>, beyond: seq<Byte>, yielded: seq<SseEvent>, intact: bool,
                           end: ExecutorEvent) {
    && (end != Eof ==> yielded <= OnePass(decode, beyond).events)
    && (end == Eof ==> intact && OnePass(decode, whole) == Decoded(yielded, false))
    && (intact ==> (end == Eof <==> !OnePass(decode, whole).failed))
  }

  lemma {:induction false} BodyDecodes(decode: Decode, st: State, fed: seq<Byte>, out: seq<SseEvent>,
                                       body: seq<BodyStep>, more: seq<Byte>)
    requires Represents(decode, st, fed, out)
    ensures Faithful(decode, fed + Arrived(body), fed + (Arrived(body) + more), out + Yielded(decode, st, body),
                     Intact(body), Ending(decode, st, body))
    decreases |body|, 1
  {
    if body == [] {
      assert Arrived(body) == [] && Intact(body);
      EmptyBodyDecodes(decode, st, fed, out, more);
    } else if body[0].Chunk? && !st.pendingError {
      ChunkDecodes(decode, st, fed, out, body, more);
    } else {
      StoppedBodyDecodes(decode, st, fed, out, body, more);
    }
  }

  lemma {:induction false} ChunkDecodes(decode: Decode, st: State, fed: seq<Byte>, out: seq<SseEvent>,
                                        body: seq<BodyStep>, more: seq<Byte>)
    requires Represents(decode, st, fed, out) && body != [] && body[0].Chunk? && !st.pendingError
    ensures Faithful(decode, fed + Arrived(body), fed + (Arrived(body) + more), out + Yielded(decode, st, body),
                     Intact(body), Ending(decode, st, body))
    decreases |body|, 0
  {
    var bytes, rest := body[0].bytes, body[1..];
    PushKeeps(decode, st, fed, out, bytes);
    var (next, r) := Pushed(decode, st, bytes);
    BodyDecodes(decode, next, fed + bytes, out + r.value, rest, more);
    ChunkParts(decode, st, body, next, r.value);
    Regrouped(fed, bytes, Arrived(rest));
    Regrouped(fed, bytes, Arrived(rest) + more);
    Regrouped(bytes, Arrived(rest), more);
    Regrouped(out, r.value, Yielded(decode, next, rest));
  }

  lemma {:induction false} Regrouped<T>(a: seq<T>, b: seq<T>, c: seq<T>)
    ensures (a + b) + c == a + (b + c)
  {
  }

  lemma {:induction false} ChunkParts(decode: Decode, st: State, body: seq<BodyStep>, next: State,
                                      events: seq<SseEvent>)
    requires body != [] && body[0].Chunk? && Pushed(decode, st, body[0].bytes) == (next, Ok(events))
    ensures Arrived(body) == body[0].bytes + Arrived(body[1..])
    ensures Yielded(decode, st, body) == events + Yielded(decode, next, body[1..])
    ensures Ending(decode, st, body) == Ending(decode, next, body[1..]) && Intact(body) == Intact(body[1..])
  {
    IntactTail(body);
  }

  lemma {:induction false} IntactTail(body: seq<BodyStep>)
    requires body != [] && body[0].Chunk?
    ensures Intact(body) <==> Intact(body[1..])
  {
    if Intact(body[1..]) {
      forall i | 0 <= i < |body|
        ensures body[i].Chunk?
      {
        assert i > 0 ==> body[i] == body[1..][i - 1];
      }
    }
  }

  lemma {:induction false} StoppedBodyDecodes(decode: Decode, st: State, fed: seq<Byte>, out: seq<SseEvent>,
                                              body: seq<BodyStep>, more: seq<Byte>)
    requires Represents(decode, st, fed, out) && body != [] && (body[0].Broken? || st.pendingError)
    ensures Faithful(decode, fed + Arrived(body), fed + (Arrived(body) + more), out + Yielded(decode, st, body),
                     Intact(body), Ending(decode, st, body))
  {
    assert out + [] == out;
    EarlyEventsAreFinal(decode, st, fed, out, Arrived(body) + more);
    if st.pendingError {
      FailureIsFinal(decode, fed, Arrived(body));
    }
  }

  lemma {:induction false} EmptyBodyDecodes(decode: Decode, st: State, fed: seq<Byte>, out: seq<SseEvent>,
                                            more: seq<Byte>)
    requires Represents(decode, st, fed, out)
    ensures Faithful(decode, fed + [], fed + ([] + more), out + Yielded(decode, st, []), true, Ending(decode, st, []))
  {
    assert fed + [] == fed && [] + more == more && out + [] == out;
    EarlyEventsAreFinal(decode, st, fed, out, more);
    if st.pendingError {
      FailureIsFinal(decode, fed, []);
    } else {
      FinishIsOnePass(decode, st, fed, out);
    }
  }

  // ---------------------------------------------------------------- whole runs

  // `k` retries, then a failure; or `k` retries, the response, its events, and one end.
  ghost predicate RunGrammar(trace: seq<ExecutorEvent>, k: nat, maxRetries: nat, cap: nat) {
    && k <= maxRetries && k < |trace| && Retries(trace[..k], 1, maxRetries, cap)
    && if trace[k].Failed? then |trace| == k + 1
       else
         && trace[k].Established? && k + 2 <= |trace|
         && (forall i :: k < i < |trace| - 1 ==> trace[i].Event?)
         && (trace[|trace| - 1].Eof? || trace[|trace| - 1].Failed?)
  }

  lemma {:induction false} AllEvents(events: seq<SseEvent>)
    ensures |EventsOf(events)| == |events|
    ensures forall i :: 0 <= i < |events| ==> EventsOf(events)[i] == Event(events[i])
    decreases |events|
  {
    if events != [] {
      AllEvents(events[1..]);
    }
  }

  lemma {:induction false} AnsweredGrammar(retries: seq<ExecutorEvent>, id: Option<string>, events: seq<ExecutorEvent>,
                                           end: ExecutorEvent, trace: seq<ExecutorEvent>, maxRetries: nat, cap: nat)
    requires |retries| <= maxRetries && Retries(retries, 1, maxRetries, cap)
    requires (forall i :: 0 <= i < |events| ==> events[i].Event?) && (end.Eof? || end.Failed?)
    requires trace == retries + [Established(id)] + (events + [end])
    ensures RunGrammar(trace, |retries|, maxRetries, cap)
    ensures trace[|retries| + 1..|trace| - 1] == events && trace[|trace| - 1] == end
  {
    assert trace[..|retries|] == retries;
    assert trace[|retries| + 1..|trace| - 1] == events;
    forall i | |retries| < i < |trace| - 1
      ensures trace[i].Event?
    {
      assert trace[i] == events[i - |retries| - 1];
    }
  }

  // What a run that ends in `Eof` has yielded: the one-pass decoding of the whole body.
  ghost predicate WholeBodyDecoded(decode: Decode, body: seq<BodyStep>, yielded: seq<ExecutorEvent>) {
    && Intact(body) && !OnePass(decode, Arrived(body)).failed
    && yielded == EventsOf(OnePass(decode, Arrived(body)).events)
  }

  lemma {:induction false} AnsweredRun(decode: Decode, retries: seq<ExecutorEvent>, id: Option<string>,
                                       body: seq<BodyStep>, trace: seq<ExecutorEvent>, maxRetries: nat, cap: nat)
    requires |retries| <= maxRetries && Retries(retries, 1, maxRetries, cap)
    requires trace == retries + [Established(id)] + ReadBody(decode, INITIAL, body)
    ensures RunGrammar(trace, |retries|, maxRetries, cap)
    ensures trace[|trace| - 1] == Eof ==> WholeBodyDecoded(decode, body, trace[|retries| + 1..|trace| - 1])
  {
    var events, end := Yielded(decode, INITIAL, body), Ending(decode, INITIAL, body);
    BodyParts(decode, INITIAL, body);
    AllEvents(events);
    AnsweredGrammar(retries, id, EventsOf(events), end, trace, maxRetries, cap);
    WholeBody(decode, body);
  }

  lemma {:induction false} WholeBody(decode: Decode, body: seq<BodyStep>)
    ensures Ending(decode, INITIAL, body) == Eof ==>
            WholeBodyDecoded(decode, body, EventsOf(Yielded(decode, INITIAL, body)))
  {
    InitiallyRepresents(decode);
    BodyDecodes(decode, INITIAL, [], [], body, []);
    assert [] + Arrived(body) == Arrived(body);
    assert [] + Yielded(decode, INITIAL, body) == Yielded(decode, INITIAL, body);
  }

  // A completed run: at most `maxRetries` retries, numbered from one, none waiting longer
  // than the larger of the cap and eight seconds, one observed send more than retries, and
  // one end. Where the body closed normally the events are the one-pass decoding of all
  // its bytes.
  ghost predicate ProperRun(decode: Decode, run: Opened, k: nat, maxRetries: nat, cap: nat) {
    && RunGrammar(run.events, k, maxRetries, cap)
    && Sent(run.observed) == CountFrom(1, k + 1)
    && (run.events[|run.events| - 1] == Eof ==>
         && run.response.Some? && run.response.value.Answered?
         && WholeBodyDecoded(decode, run.response.value.body, run.events[k + 1..|run.events| - 1]))
  }

  lemma {:induction false} RunFollows(decode: Decode, tried: Opened, k: nat, maxRetries: nat, cap: nat)
    requires OpensWith(tried, k, 0, maxRetries, cap) && (tried.response.Some? ==> tried.response.value.Answered?)
    ensures ProperRun(decode, Continued(decode, tried), k, maxRetries, cap)
  {
    if tried.response.Some? {
      assert tried.events[..k] == tried.events;
      AnsweredRun(decode, tried.events, tried.response.value.requestId, tried.response.value.body,
                  Continued(decode, tried).events, maxRetries, cap);
    }
  }

  // Every completed run is a proper one.
  lemma {:induction false} EveryRunIsGrammatical(decode: Decode, world: World, maxRetries: nat,
                                                 maxRetryDelay: Option<nat>)
    returns (k: nat)
    ensures ProperRun(decode, Executed(decode, world, maxRetries, maxRetryDelay), k, maxRetries,
                      maxRetryDelay.GetOr(DEFAULT_MAX_RETRY_DELAY))
  {
    var cap := maxRetryDelay.GetOr(DEFAULT_MAX_RETRY_DELAY);
    k := OpenRetries(world, 0, maxRetries, cap);
    RunFollows(decode, Open(world, 0, maxRetries, cap), k, maxRetries, cap);
  }
}
