// The grammar of every driven stream.
module Traces {
  import opened Prelude
  import opened Messages
  import opened Assembler
  import opened AssemblerTheorems
  import opened MessageStreams
  import opened Driver
  import opened Projection

  // ---------------------------------------------------------------- the grammar

  // What has been said of one content index so far.
  datatype Track = Track(kind: BlockKind, ended: bool)

  predicate IsStart(e: AssistantMessageEvent) {
    e.TextStart? || e.ThinkingStart? || e.ToolCallStart?
  }

  predicate IsEnd(e: AssistantMessageEvent) {
    e.TextEnd? || e.ThinkingEnd? || e.ToolCallEnd?
  }

  predicate IsBlockEvent(e: AssistantMessageEvent) {
    IsStart(e) || IsDelta(e) || IsEnd(e)
  }

  function EventKind(e: AssistantMessageEvent): BlockKind
    requires IsBlockEvent(e)
  {
    if e.TextStart? || e.TextDelta? || e.TextEnd? then TextBlock
    else if e.ThinkingStart? || e.ThinkingDelta? || e.ThinkingEnd? then ThinkingBlock
    else ToolBlock
  }

  // One event between `Start` and the terminal one: a retry, the next index, or an event
  // of an open block of its kind.
  function Follow(tracks: seq<Track>, e: AssistantMessageEvent): Option<seq<Track>> {
    if e.Retry? then Some(tracks)
    else if !IsBlockEvent(e) then None
    else if IsStart(e) then
      if e.index == |tracks| then Some(tracks + [Track(EventKind(e), false)]) else None
    else if !(e.index < |tracks| && tracks[e.index] == Track(EventKind(e), false)) then None
    else if IsDelta(e) then Some(tracks)
    else Some(tracks[e.index := Track(EventKind(e), true)])
  }

  // The terminal event agrees with its message.
  predicate ProperEnd(e: AssistantMessageEvent) {
    match e
    case Done(reason, m) =>
      reason != StopReason.Pending && m.stopReason == reason && m.errorKind == None && m.errorMessage == None
    case Failed(reason, m) =>
      && (reason == StopReason.Error || reason == StopReason.Aborted) && m.stopReason == reason
      && m.rawStopReason == None && m.errorMessage.Some? && (m.errorKind.Some? <==> reason == StopReason.Error)
    case _ => false
  }

  // Events up to exactly one terminal event, the last.
  predicate Grammatical(tracks: seq<Track>, events: seq<AssistantMessageEvent>)
    decreases |events|
  {
    && events != []
    && if |events| == 1 then ProperEnd(events[0])
       else Follow(tracks, events[0]).Some? && Grammatical(Follow(tracks, events[0]).value, events[1..])
  }

  // A whole stream: one `Start` carrying the empty message, then the rest.
  predicate StreamGrammar(events: seq<AssistantMessageEvent>) {
    && |events| >= 2 && events[0].Start? && events[0].message.content == []
    && events[0].message.stopReason == StopReason.Pending
    && Grammatical([], events[1..])
  }

  // ---------------------------------------------------------------- one turn

  ghost predicate Tracked(st: State, tracks: seq<Track>) {
    && Placed(st) && |tracks| == |st.message.content|
    && forall id :: id in st.blocks ==> tracks[st.blocks[id].index] == Track(st.blocks[id].kind, st.blocks[id].ended)
  }

  predicate NoError(m: AssistantMessage) {
    m.errorKind == None && m.errorMessage == None
  }

  // The driver's own record of the stop reason.
  predicate Recalls(st: State, reason: Option<StopReason>) {
    && NoError(st.message)
    && (reason.Some? ==> reason.value != StopReason.Pending && st.message.stopReason == reason.value)
  }

  lemma {:induction false} BlockEventTracked(st: State, tracks: seq<Track>, e: ProtocolEvent)
    requires Bijective(st) && Tracked(st, tracks) && IsContentEvent(e) && !st.stopped
    ensures var a := Step(st, e);
            && (a.event.None? ==> Tracked(a.state, tracks))
            && (a.event.Some? && !a.event.value.Failed? ==>
                 Follow(tracks, a.event.value).Some? && Tracked(a.state, Follow(tracks, a.event.value).value))
  {
    if e.TextStart? || e.ThinkingStart? || e.ToolCallStart? {
      StartTracked(st, tracks, e);
    } else if e.TextEnd? || e.ThinkingEnd? || e.ToolCallEnd? {
      EndTracked(st, tracks, e);
    }
  }

  lemma {:induction false} StartTracked(st: State, tracks: seq<Track>, e: ProtocolEvent)
    requires Bijective(st) && Tracked(st, tracks) && (e.TextStart? || e.ThinkingStart? || e.ToolCallStart?) &&
             !st.stopped
    ensures var a := Step(st, e);
            a.event.Some? && (!a.event.value.Failed? ==>
              Follow(tracks, a.event.value).Some? && Tracked(a.state, Follow(tracks, a.event.value).value))
  {
  }

  lemma {:induction false} EndTracked(st: State, tracks: seq<Track>, e: ProtocolEvent)
    requires Bijective(st) && Tracked(st, tracks) && (e.TextEnd? || e.ThinkingEnd? || e.ToolCallEnd?) && !st.stopped
    ensures var a := Step(st, e);
            a.event.Some? && (!a.event.value.Failed? ==>
              Follow(tracks, a.event.value).Some? && Tracked(a.state, Follow(tracks, a.event.value).value))
  {
  }

  lemma {:induction false} StepRecalls(st: State, reason: Option<StopReason>, e: ProtocolEvent)
    requires Placed(st) && Recalls(st, reason) && NormalizedStop(e) != Some(StopReason.Pending)
    ensures var a := Step(st, e);
            var next := if NormalizedStop(e).Some? then NormalizedStop(e) else reason;
            if a.event.Some? && a.event.value.Failed? then ProperEnd(a.event.value) else Recalls(a.state, next)
  {
  }

  // A turn that does not end the stream follows the grammar; one that does ends it properly.
  ghost predicate Follows(t: Turned, tracks: seq<Track>) {
    && (t.event.None? ==> Tracked(t.state, tracks))
    && (t.event.Some? && !t.last ==>
        Follow(tracks, t.event.value).Some? && Tracked(t.state, Follow(tracks, t.event.value).value))
    && (t.last ==> t.event.Some? && ProperEnd(t.event.value))
    && (!t.last ==> Recalls(t.state, t.reason))
  }

  lemma {:induction false} TurnFollows(st: State, tracks: seq<Track>, reason: Option<StopReason>, step: AdapterStep)
    requires Bijective(st) && Tracked(st, tracks) && Recalls(st, reason)
    ensures Follows(Turn(st, reason, step), tracks)
  {
    if step.Next? && NormalizedStop(step.event) != Some(StopReason.Pending) {
      StepRecalls(st, reason, step.event);
      StepNotDone(st, step.event);
      if IsContentEvent(step.event) && !st.stopped {
        BlockEventTracked(st, tracks, step.event);
      }
    }
  }

  // ---------------------------------------------------------------- whole traces

  lemma {:induction false} LoopGrammatical(st: State, events: seq<AssistantMessageEvent>, tracks: seq<Track>,
                                           reason: Option<StopReason>, steps: seq<AdapterStep>)
    requires Sound(st, events) && Tracked(st, tracks) && Recalls(st, reason)
    ensures Grammatical(tracks, Events(Loop(st, reason, steps)))
    decreases |steps|
  {
    if steps == [] {
      assert Events(Loop(st, reason, steps)) == [Ending(st, reason).event];
      assert ProperEnd(Ending(st, reason).event);
    } else {
      var t := Turn(st, reason, steps[0]);
      LoopTurn(st, reason, steps);
      TurnFollows(st, tracks, reason, steps[0]);
      TurnSound(st, events, reason, steps[0]);
      if t.event.None? {
        LoopGrammatical(t.state, events, tracks, t.reason, steps[1..]);
        assert [] + Events(Loop(t.state, t.reason, steps[1..])) == Events(Loop(t.state, t.reason, steps[1..]));
      } else if t.last {
        assert [t.event.value] + [] == [t.event.value];
      } else {
        var rest := Events(Loop(t.state, t.reason, steps[1..]));
        LoopGrammatical(t.state, events + [t.event.value], Follow(tracks, t.event.value).value, t.reason, steps[1..]);
        ConsGrammatical(tracks, t.event.value, rest);
      }
    }
  }

  lemma {:induction false} ConsGrammatical(tracks: seq<Track>, e: AssistantMessageEvent,
                                           rest: seq<AssistantMessageEvent>)
    requires Follow(tracks, e).Some? && Grammatical(Follow(tracks, e).value, rest)
    ensures Grammatical(tracks, [e] + rest)
  {
    assert ([e] + rest)[1..] == rest;
  }

  lemma {:induction false} TurnSound(st: State, events: seq<AssistantMessageEvent>, reason: Option<StopReason>,
                                     step: AdapterStep)
    requires Sound(st, events)
    ensures var t := Turn(st, reason, step);
            && (t.event.None? ==> Sound(t.state, events))
            && (t.event.Some? && !t.last ==> Sound(t.state, events + [t.event.value]))
            && (t.event.Some? ==> EndCarries(t.event.value, events))
  {
    if step.Next? && NormalizedStop(step.event) != Some(StopReason.Pending) {
      StepSound(st, events, step.event);
      EndsCarryDeltas(st, events, step.event);
    }
  }

  lemma {:induction false} NotedRecalls(st: State, diagnostics: seq<Diagnostic>)
    requires Placed(st) && NoError(st.message)
    ensures NoError(Noted(st, diagnostics).message)
    decreases |diagnostics|
  {
    if diagnostics != [] {
      NotedRecalls(Step(st, Report(diagnostics[0])).state, diagnostics[1..]);
    }
  }

  lemma {:induction false} OneEventGrammatical(a: Applied)
    requires a.event.Some? && ProperEnd(a.event.value)
    ensures Grammatical([], Events(Emits(a)))
  {
    assert Events(Emits(a)) == [a.event.value];
  }

  // For every adapter, cancellation point and preflight failure, the stream is one
  // `Start`, then retries and block events, then exactly one `Done` or `Error`.
  lemma {:induction false} EveryStreamIsGrammatical(model: string, provider: string, api: string, now: int,
                                                    checks: seq<Option<string>>,
                                                    normalized: Result<seq<Diagnostic>, string>, auth: Authorized,
                                                    steps: seq<AdapterStep>)
    ensures StreamGrammar(Events(Driven(Streaming(model, provider, api, now), checks, normalized, auth, steps)))
  {
    var initial := Streaming(model, provider, api, now);
    var trace := Driven(initial, checks, normalized, auth, steps);
    RestGrammatical(initial, checks, normalized, auth, steps);
    assert trace == [trace[0]] + trace[1..];
    EventsAppend([trace[0]], trace[1..]);
    assert Events([trace[0]]) == [trace[0].event];
  }

  lemma {:induction false} RestGrammatical(initial: AssistantMessage, checks: seq<Option<string>>,
                                           normalized: Result<seq<Diagnostic>, string>, auth: Authorized,
                                           steps: seq<AdapterStep>)
    requires initial.content == [] && NoError(initial)
    ensures Grammatical([], Events(Driven(initial, checks, normalized, auth, steps)[1..]))
  {
    var st := Initial(initial);
    if FirstRefusal(checks).Some? {
      OneEventGrammatical(FailedWith(st, InvalidRequest, Said(FirstRefusal(checks).value), []));
    } else if normalized.Err? {
      OneEventGrammatical(FailedWith(st, InvalidRequest, Said(normalized.error), []));
    } else {
      AuthenticatedGrammatical(initial, normalized.value, auth, steps);
    }
  }

  lemma {:induction false} AuthenticatedGrammatical(initial: AssistantMessage, diagnostics: seq<Diagnostic>,
                                                    auth: Authorized, steps: seq<AdapterStep>)
    requires initial.content == [] && NoError(initial)
    ensures Grammatical([], Events(Authenticated(Noted(Initial(initial), diagnostics), auth, steps)))
  {
    var st := Noted(Initial(initial), diagnostics);
    NotedRecalls(Initial(initial), diagnostics);
    match auth
    case Refused(text) => OneEventGrammatical(FailedWith(st, ErrorKind.Auth, Said(text), []));
    case CancelledFirst => OneEventGrammatical(AbortedWith(st, Cancelled));
    case Resolved =>
      StartShadows(initial, diagnostics);
      LoopGrammatical(st, [Start(initial)], [], None, steps);
  }

  // ---------------------------------------------------------------- one block

  // The events of one block, in order.
  function OfBlock(events: seq<AssistantMessageEvent>, i: nat): seq<AssistantMessageEvent> {
    if events == [] then []
    else (if IsBlockEvent(events[0]) && events[0].index == i then [events[0]] else []) + OfBlock(events[1..], i)
  }

  // Start Delta* End?, all of one kind.
  predicate BlockShape(events: seq<AssistantMessageEvent>) {
    events == [] || (IsBlockEvent(events[0]) && IsStart(events[0]) && OpenShape(EventKind(events[0]), events[1..]))
  }

  predicate OpenShape(kind: BlockKind, events: seq<AssistantMessageEvent>) {
    events == [] || (
      && IsBlockEvent(events[0]) && EventKind(events[0]) == kind
      && if IsEnd(events[0]) then |events| == 1 else IsDelta(events[0]) && OpenShape(kind, events[1..]))
  }

  // Every block of a grammatical stream has the shape Start Delta* End?.
  lemma {:induction false} EveryBlockHasShape(events: seq<AssistantMessageEvent>, i: nat)
    requires StreamGrammar(events)
    ensures BlockShape(OfBlock(events, i))
  {
    BlockShapes([], events[1..], i);
    assert OfBlock(events, i) == OfBlock(events[1..], i);
  }

  lemma {:induction false} BlockShapes(tracks: seq<Track>, events: seq<AssistantMessageEvent>, i: nat)
    requires Grammatical(tracks, events)
    ensures i >= |tracks| ==> BlockShape(OfBlock(events, i))
    ensures i < |tracks| && tracks[i].ended ==> OfBlock(events, i) == []
    ensures i < |tracks| && !tracks[i].ended ==> OpenShape(tracks[i].kind, OfBlock(events, i))
    decreases |events|
  {
    if |events| == 1 {
      assert events[1..] == [];
      assert OfBlock(events, i) == [];
    } else {
      var e := events[0];
      var rest := OfBlock(events[1..], i);
      BlockShapes(Follow(tracks, e).value, events[1..], i);
      if IsBlockEvent(e) && e.index == i {
        assert OfBlock(events, i) == [e] + rest;
        assert ([e] + rest)[1..] == rest;
      } else {
        assert OfBlock(events, i) == rest;
      }
    }
  }

  // ---------------------------------------------------------------- what ends carry

  lemma {:induction false} EndingCarries(st: State, events: seq<AssistantMessageEvent>, reason: Option<StopReason>)
    requires Placed(st)
    ensures var out := Events(Loop(st, reason, [])); |out| == 1 && EndCarries(out[0], events)
  {
    assert Events(Loop(st, reason, [])) == [Ending(st, reason).event];
  }

  lemma {:induction false} LaterPlace(out: seq<AssistantMessageEvent>, e: AssistantMessageEvent,
                                      rest: seq<AssistantMessageEvent>, events: seq<AssistantMessageEvent>, k: nat)
    requires out == [e] + rest && 0 < k < |out|
    ensures out[k] == rest[k - 1] && events + out[..k] == (events + [e]) + rest[..k - 1]
  {
  }

  lemma {:induction false} LoopCarries(st: State, events: seq<AssistantMessageEvent>, reason: Option<StopReason>,
                                       steps: seq<AdapterStep>, k: nat)
    requires Sound(st, events) && k < |Events(Loop(st, reason, steps))|
    ensures var out := Events(Loop(st, reason, steps)); EndCarries(out[k], events + out[..k])
    decreases |steps|
  {
    var out := Events(Loop(st, reason, steps));
    if steps == [] {
      EndingCarries(st, events, reason);
    } else {
      var t := Turn(st, reason, steps[0]);
      LoopTurn(st, reason, steps);
      TurnSound(st, events, reason, steps[0]);
      if t.event.None? {
        LoopCarries(t.state, events, t.reason, steps[1..], k);
        assert out == Events(Loop(t.state, t.reason, steps[1..]));
      } else if k == 0 {
        assert events + out[..0] == events;
      } else {
        var rest := Events(Loop(t.state, t.reason, steps[1..]));
        LoopCarries(t.state, events + [t.event.value], t.reason, steps[1..], k - 1);
        LaterPlace(out, t.event.value, rest, events, k);
      }
    }
  }

  // In every driven stream, an end event carries the concatenation of its block's deltas,
  // and for a tool call the parse of it.
  lemma {:induction false} EveryEndCarriesItsDeltas(initial: AssistantMessage, checks: seq<Option<string>>,
                                                    normalized: Result<seq<Diagnostic>, string>, auth: Authorized,
                                                    steps: seq<AdapterStep>, k: nat)
    requires initial.content == [] && k < |Events(Driven(initial, checks, normalized, auth, steps))|
    ensures var out := Events(Driven(initial, checks, normalized, auth, steps)); EndCarries(out[k], out[..k])
  {
    var trace := Driven(initial, checks, normalized, auth, steps);
    EventsAt(trace, k);
    if k > 0 && FirstRefusal(checks).None? && normalized.Ok? && auth.Resolved? {
      ResolvedEndsCarry(initial, normalized.value, steps, k);
      assert trace == [Traced(Start(initial), Initial(initial))] +
             Loop(Noted(Initial(initial), normalized.value), None, steps);
    }
  }

  lemma {:induction false} ResolvedEndsCarry(initial: AssistantMessage, diagnostics: seq<Diagnostic>,
                                             steps: seq<AdapterStep>, k: nat)
    requires initial.content == []
    requires 0 < k < |Events([Traced(Start(initial), Initial(initial))] +
                             Loop(Noted(Initial(initial), diagnostics), None, steps))|
    ensures var out := Events([Traced(Start(initial), Initial(initial))] +
                              Loop(Noted(Initial(initial), diagnostics), None, steps));
            EndCarries(out[k], out[..k])
  {
    var st := Noted(Initial(initial), diagnostics);
    var rest := Events(Loop(st, None, steps));
    EventsAppend([Traced(Start(initial), Initial(initial))], Loop(st, None, steps));
    assert Events([Traced(Start(initial), Initial(initial))]) == [Start(initial)];
    StartShadows(initial, diagnostics);
    LoopCarries(st, [Start(initial)], None, steps, k - 1);
    assert ([Start(initial)] + rest)[..k] == [Start(initial)] + rest[..k - 1];
  }
}
