// From the bytes of the response to the caller's events: how a body is cut into pieces
// cannot be seen.
module EndToEnd {
  import opened Prelude
  import opened Messages
  import opened SseSpec
  import opened Sse
  import opened SseTheorems
  import opened Executor
  import opened ExecutorTheorems
  import Assembler
  import Driver
  import Http
  import ProtocolRuns
  import OpenAiAdapter
  import AnthropicAdapter

  // One answer, with its body cut in two ways. The body closes normally and holds no
  // oversized event.
  predicate SameBytes(decode: Decode, a: SendOutcome, b: SendOutcome) {
    && a.Answered? && b.Answered? && a.requestId == b.requestId
    && Intact(a.body) && Intact(b.body) && Arrived(a.body) == Arrived(b.body)
    && !OnePass(decode, Arrived(a.body)).failed
  }

  ghost predicate SameButForCuts(decode: Decode, x: World, y: World) {
    forall attempt :: x.draws(attempt) == y.draws(attempt)
                      && (x.sends(attempt) == y.sends(attempt) || SameBytes(decode, x.sends(attempt), y.sends(attempt)))
  }

  lemma {:induction false} IntactBodyReads(decode: Decode, body: seq<BodyStep>)
    requires Intact(body) && !OnePass(decode, Arrived(body)).failed
    ensures ReadBody(decode, INITIAL, body) == EventsOf(OnePass(decode, Arrived(body)).events) + [Eof]
  {
    InitiallyRepresents(decode);
    BodyDecodes(decode, INITIAL, [], [], body, []);
    assert [] + Arrived(body) == Arrived(body);
    assert [] + Yielded(decode, INITIAL, body) == Yielded(decode, INITIAL, body);
    BodyParts(decode, INITIAL, body);
  }

  // The sends go the same way, up to the cuts of the answer.
  lemma {:induction false} OpensAlike(decode: Decode, x: World, y: World, attempt: nat, maxRetries: nat, cap: nat)
    requires SameButForCuts(decode, x, y)
    ensures var a, b := Open(x, attempt, maxRetries, cap), Open(y, attempt, maxRetries, cap);
            && a.events == b.events && a.observed == b.observed
            && (a.response == b.response
                || (a.response.Some? && b.response.Some? && SameBytes(decode, a.response.value, b.response.value)))
    decreases maxRetries - attempt
  {
    TriesAlike(decode, x, y, attempt, maxRetries, cap);
    if TryOnce(x, attempt, maxRetries, cap).again {
      OpensAlike(decode, x, y, attempt + 1, maxRetries, cap);
    }
  }

  lemma {:induction false} TriesAlike(decode: Decode, x: World, y: World, attempt: nat, maxRetries: nat, cap: nat)
    requires SameButForCuts(decode, x, y)
    ensures var a, b := TryOnce(x, attempt, maxRetries, cap), TryOnce(y, attempt, maxRetries, cap);
            && a.events == b.events && a.observed == b.observed && a.again == b.again
            && (a.response == b.response
                || (a.response.Some? && b.response.Some? && SameBytes(decode, a.response.value, b.response.value)))
  {
    assert x.draws(attempt) == y.draws(attempt);
  }

  lemma {:induction false} ExecutesAlike(decode: Decode, x: World, y: World, maxRetries: nat,
                                         maxRetryDelay: Option<nat>)
    requires SameButForCuts(decode, x, y)
    ensures var a, b := Executed(decode, x, maxRetries, maxRetryDelay), Executed(decode, y, maxRetries, maxRetryDelay);
            a.events == b.events && a.observed == b.observed
  {
    var cap := maxRetryDelay.GetOr(Http.DEFAULT_MAX_RETRY_DELAY);
    OpensAlike(decode, x, y, 0, maxRetries, cap);
    var a, b := Open(x, 0, maxRetries, cap).response, Open(y, 0, maxRetries, cap).response;
    if a != b {
      IntactBodyReads(decode, a.value.body);
      IntactBodyReads(decode, b.value.body);
    }
  }

  // What the caller is shown of an adapter's events.
  function Shown(initial: AssistantMessage, checks: seq<Option<string>>, normalized: Result<seq<Diagnostic>, string>,
                 auth: Driver.Authorized, events: seq<Assembler.ProtocolEvent>): seq<AssistantMessageEvent>
  {
    Driver.Events(Driver.Driven(initial, checks, normalized, auth, ProtocolRuns.Nexts(events)))
  }

  // However the network cuts an intact body, through the decoder, the executor, either
  // adapter, the assembler and the driver the caller is shown the same events.
  lemma {:induction false} CutsAreInvisible(decode: Decode, x: World, y: World, maxRetries: nat,
                                            maxRetryDelay: Option<nat>, openAi: OpenAiAdapter.Wire,
                                            anthropic: AnthropicAdapter.Wire, initial: AssistantMessage,
                                            checks: seq<Option<string>>, normalized: Result<seq<Diagnostic>, string>,
                                            auth: Driver.Authorized)
    requires SameButForCuts(decode, x, y)
    ensures var a := Executed(decode, x, maxRetries, maxRetryDelay).events;
            var b := Executed(decode, y, maxRetries, maxRetryDelay).events;
            && Shown(initial, checks, normalized, auth, OpenAiAdapter.Streamed(openAi, a))
               == Shown(initial, checks, normalized, auth, OpenAiAdapter.Streamed(openAi, b))
            && Shown(initial, checks, normalized, auth, AnthropicAdapter.Streamed(anthropic, a))
               == Shown(initial, checks, normalized, auth, AnthropicAdapter.Streamed(anthropic, b))
  {
    ExecutesAlike(decode, x, y, maxRetries, maxRetryDelay);
  }
}
