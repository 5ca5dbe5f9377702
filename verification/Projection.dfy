// The public stream refines the assembler: after every public event the message rebuilt
// from the events is the assembler's, but for the signatures of blocks not yet ended.
module Projection {
  import opened Prelude
  import opened Messages
  import opened Assembler
  import opened AssemblerTheorems
  import opened MessageStreams
  import opened Driver

  // A block as the public events show it: its signature and redaction arrive with its end.
  function Shown(c: AssistantContent, ended: bool): AssistantContent {
    if ended then c
    else
      match c
      case Text(t) => Text(t.(signature := None))
      case Thinking(t) => Thinking(t.(signature := None, redacted := false))
      case Tool(_) => c
  }

  ghost predicate Mirrors(st: State, partial: AssistantMessage) {
    && Placed(st) && |partial.content| == |st.message.content|
    && forall id :: id in st.blocks ==>
         partial.content[st.blocks[id].index] == Shown(st.message.content[st.blocks[id].index], st.blocks[id].ended)
  }

  // ---------------------------------------------------------------- one event

  lemma {:induction false} BegunMirrors(st: State, partial: AssistantMessage, id: nat, content: AssistantContent,
                                        public: AssistantMessageEvent)
    requires Bijective(st) && Mirrors(st, partial) && id !in st.blocks
    requires Recorded(partial, public) == partial.(content := partial.content + [Shown(content, false)])
    ensures Mirrors(Begun(st, id, content, public).state, Recorded(partial, public))
  {
  }

  lemma {:induction false} ReplacedMirrors(st: State, partial: AssistantMessage, id: nat, content: AssistantContent,
                                           shown: AssistantMessage)
    requires Bijective(st) && Mirrors(st, partial) && id in st.blocks
    requires KindOf(content) == st.blocks[id].kind
    requires shown == partial.(content := partial.content[st.blocks[id].index := Shown(content, st.blocks[id].ended)])
    ensures Mirrors(Replaced(st, st.blocks[id].index, content), shown)
  {
  }

  // The block ends, and its whole content is shown.
  lemma {:induction false} EndedMirrors(st: State, partial: AssistantMessage, id: nat, content: AssistantContent,
                                        shown: AssistantMessage)
    requires Bijective(st) && Mirrors(st, partial) && id in st.blocks
    requires KindOf(content) == st.blocks[id].kind
    requires shown == partial.(content := partial.content[st.blocks[id].index := content])
    ensures Mirrors(Replaced(st.(blocks := Ended(st.blocks, id)), st.blocks[id].index, content), shown)
  {
  }

  lemma {:induction false} ExtendedMirrors(st: State, partial: AssistantMessage, id: nat, kind: BlockKind,
                                           delta: string)
    requires Bijective(st) && Mirrors(st, partial) && Lookup(st.blocks, id, kind).Ok?
    ensures var a := Extended(st, id, kind, delta); Mirrors(a.state, Recorded(partial, a.event.value))
  {
    var i := st.blocks[id].index;
    var a := Extended(st, id, kind, delta);
    ReplacedMirrors(st, partial, id, Grown(st.message.content[i], delta), Recorded(partial, a.event.value));
  }

  lemma {:induction false} SignedMirrors(st: State, partial: AssistantMessage, id: nat, sign: string)
    requires Bijective(st) && Mirrors(st, partial) && Lookup(st.blocks, id, ThinkingBlock).Ok?
    ensures Mirrors(Signed(st, id, sign).state, partial)
  {
    var i := st.blocks[id].index;
    var content := Thinking(st.message.content[i].thinking.(signature := Some(sign)));
    assert partial.content[i := Shown(content, false)] == partial.content;
    ReplacedMirrors(st, partial, id, content, partial);
  }

  lemma {:induction false} ClosedMirrors(st: State, partial: AssistantMessage, id: nat, kind: BlockKind, a: Applied)
    requires Bijective(st) && Mirrors(st, partial) && Lookup(st.blocks, id, kind).Ok?
    requires a == Closed(st, id, kind) && !a.event.value.Failed?
    ensures Mirrors(a.state, Recorded(partial, a.event.value))
  {
    var i := st.blocks[id].index;
    var content := a.state.message.content[i];
    assert st.message.content[i := content] == a.state.message.content;
    EndedMirrors(st, partial, id, content, Recorded(partial, a.event.value));
  }

  // What an event that is not terminal leaves is still mirrored.
  ghost predicate StillMirrored(a: Applied, partial: AssistantMessage) {
    && (a.event.None? ==> Mirrors(a.state, partial))
    && (a.event.Some? && !a.event.value.Failed? ==> Mirrors(a.state, Recorded(partial, a.event.value)))
    && (a.event.Some? && a.event.value.Failed? ==> Recorded(partial, a.event.value) == a.state.message)
  }

  lemma {:induction false} FailureMirrored(a: Applied, st: State, text: ErrorText, partial: AssistantMessage)
    requires a == Violated(st, text)
    ensures StillMirrored(a, partial)
  {
  }

  lemma {:induction false} BlockEventMirrors(st: State, partial: AssistantMessage, e: ProtocolEvent)
    requires Bijective(st) && Mirrors(st, partial) && IsContentEvent(e) && !st.stopped
    ensures StillMirrored(Step(st, e), partial)
  {
    if e.TextStart? || e.ThinkingStart? || e.ToolCallStart? {
      StartMirrors(st, partial, e);
    } else if e.TextDelta? || e.ThinkingDelta? || e.ToolCallDelta? {
      DeltaMirrors(st, partial, e);
    } else if e.ThinkingSignature? {
      if Lookup(st.blocks, e.id, ThinkingBlock).Ok? {
        SignedMirrors(st, partial, e.id, e.sign);
      }
    } else {
      EndMirrors(st, partial, e);
    }
  }

  lemma {:induction false} StartMirrors(st: State, partial: AssistantMessage, e: ProtocolEvent)
    requires Bijective(st) && Mirrors(st, partial) && (e.TextStart? || e.ThinkingStart? || e.ToolCallStart?) &&
             !st.stopped
    ensures StillMirrored(Step(st, e), partial)
  {
    if e.id !in st.blocks {
      var a := Step(st, e);
      var content := a.state.message.content[|st.message.content|];
      BegunMirrors(st, partial, e.id, content, a.event.value);
    }
  }

  lemma {:induction false} DeltaMirrors(st: State, partial: AssistantMessage, e: ProtocolEvent)
    requires Bijective(st) && Mirrors(st, partial) && (e.TextDelta? || e.ThinkingDelta? || e.ToolCallDelta?) &&
             !st.stopped
    ensures StillMirrored(Step(st, e), partial)
  {
    var kind := if e.TextDelta? then TextBlock else if e.ThinkingDelta? then ThinkingBlock else ToolBlock;
    if Lookup(st.blocks, e.id, kind).Ok? {
      ExtendedMirrors(st, partial, e.id, kind, e.delta);
    }
  }

  lemma {:induction false} EndMirrors(st: State, partial: AssistantMessage, e: ProtocolEvent)
    requires Bijective(st) && Mirrors(st, partial) && (e.TextEnd? || e.ThinkingEnd? || e.ToolCallEnd?) && !st.stopped
    ensures StillMirrored(Step(st, e), partial)
  {
    var kind := if e.TextEnd? then TextBlock else if e.ThinkingEnd? then ThinkingBlock else ToolBlock;
    var a := Step(st, e);
    if Lookup(st.blocks, e.id, kind).Ok? && !a.event.value.Failed? {
      ClosedMirrors(st, partial, e.id, kind, a);
    }
  }

  lemma {:induction false} StepMirrors(st: State, partial: AssistantMessage, e: ProtocolEvent)
    requires Bijective(st) && Mirrors(st, partial)
    ensures StillMirrored(Step(st, e), partial)
  {
    if st.stopped && IsContentEvent(e) {
      FailureMirrored(Step(st, e), st, ContentAfterStop, partial);
    } else if IsContentEvent(e) {
      BlockEventMirrors(st, partial, e);
    }
  }

  // ---------------------------------------------------------------- whole traces

  // The assembler's state and the message shown, after the events so far.
  ghost predicate Shadows(st: State, events: seq<AssistantMessageEvent>, partial: AssistantMessage) {
    Sound(st, events) && Mirrors(st, partial)
  }

  // After every event of the trace, the message shown mirrors the assembler's; after the
  // last it is the assembler's.
  ghost predicate Faithful(trace: seq<Traced>, partial: AssistantMessage) {
    trace == [] || (
      var shown := Recorded(partial, trace[0].event);
      && (if IsTerminal(trace[0].event)
          then shown == TerminalMessage(trace[0].event) == trace[0].state.message
          else Bijective(trace[0].state) && Mirrors(trace[0].state, shown))
      && Faithful(trace[1..], shown))
  }

  lemma {:induction false} TurnShadows(st: State, events: seq<AssistantMessageEvent>, partial: AssistantMessage,
                                       reason: Option<StopReason>, step: AdapterStep)
    requires Shadows(st, events, partial)
    ensures var t := Turn(st, reason, step);
            && (t.event.None? ==> Shadows(t.state, events, partial))
            && (t.event.Some? && !t.last ==>
                 !IsTerminal(t.event.value) &&
                 Shadows(t.state, events + [t.event.value], Recorded(partial, t.event.value)))
            && (t.last ==> t.event.Some? && t.event.value.Failed? && t.event.value.error == t.state.message)
  {
    if step.Next? && NormalizedStop(step.event) != Some(StopReason.Pending) {
      StepSound(st, events, step.event);
      StepMirrors(st, partial, step.event);
      StepNotDone(st, step.event);
    }
  }

  // The assembler itself never reports success, and a failure carries its message.
  lemma {:induction false} StepNotDone(st: State, e: ProtocolEvent)
    requires Placed(st)
    ensures var a := Step(st, e);
            a.event.Some? ==> !a.event.value.Done? && !a.event.value.Start?
                              && (a.event.value.Failed? ==> a.event.value.error == a.state.message)
  {
  }

  lemma {:induction false} LoopFaithful(st: State, events: seq<AssistantMessageEvent>, partial: AssistantMessage,
                                        reason: Option<StopReason>, steps: seq<AdapterStep>)
    requires Shadows(st, events, partial)
    ensures Faithful(Loop(st, reason, steps), partial)
    decreases |steps|
  {
    if steps == [] {
      assert Loop(st, reason, steps) == [Ending(st, reason)];
      EndingFaithful(Ending(st, reason), partial);
    } else {
      var t := Turn(st, reason, steps[0]);
      TurnShadows(st, events, partial, reason, steps[0]);
      if t.event.None? {
        LoopFaithful(t.state, events, partial, t.reason, steps[1..]);
        assert [] + Loop(t.state, t.reason, steps[1..]) == Loop(t.state, t.reason, steps[1..]);
      } else if t.last {
        assert [Traced(t.event.value, t.state)] + [] == [Traced(t.event.value, t.state)];
        EndingFaithful(Traced(t.event.value, t.state), partial);
      } else {
        LoopFaithful(t.state, events + [t.event.value], Recorded(partial, t.event.value), t.reason, steps[1..]);
        ConsFaithful(Traced(t.event.value, t.state), Loop(t.state, t.reason, steps[1..]), partial);
      }
    }
  }

  lemma {:induction false} EndingFaithful(t: Traced, partial: AssistantMessage)
    requires IsTerminal(t.event) && TerminalMessage(t.event) == t.state.message
    ensures Faithful([t], partial)
  {
    assert [t][1..] == [];
  }

  lemma {:induction false} ConsFaithful(t: Traced, rest: seq<Traced>, partial: AssistantMessage)
    requires !IsTerminal(t.event) && Bijective(t.state) && Mirrors(t.state, Recorded(partial, t.event))
    requires Faithful(rest, Recorded(partial, t.event))
    ensures Faithful([t] + rest, partial)
  {
    assert ([t] + rest)[1..] == rest;
  }

  lemma {:induction false} StartShadows(initial: AssistantMessage, diagnostics: seq<Diagnostic>)
    requires initial.content == []
    ensures Shadows(Noted(Initial(initial), diagnostics), [Start(initial)], initial)
  {
    NotedKeeps(Initial(initial), diagnostics);
    forall i: nat
      ensures Fragments([Start(initial)], i) == []
    {
      assert [Start(initial)] == [] + [Start(initial)];
      FragmentsSnoc([], Start(initial), i);
    }
  }

  lemma {:induction false} NotedKeeps(st: State, diagnostics: seq<Diagnostic>)
    requires Placed(st)
    ensures var r := Noted(st, diagnostics);
            r.blocks == st.blocks && r.message.content == st.message.content && !r.stopped == !st.stopped
    decreases |diagnostics|
  {
    if diagnostics != [] {
      NotedKeeps(Step(st, Report(diagnostics[0])).state, diagnostics[1..]);
    }
  }

  lemma {:induction false} DrivenFaithful(initial: AssistantMessage, checks: seq<Option<string>>,
                                          normalized: Result<seq<Diagnostic>, string>, auth: Authorized,
                                          steps: seq<AdapterStep>)
    requires initial.content == []
    ensures Faithful(Driven(initial, checks, normalized, auth, steps), PLACEHOLDER)
  {
    var st, first := Initial(initial), Traced(Start(initial), Initial(initial));
    StartShadows(initial, []);
    if FirstRefusal(checks).Some? {
      EndingFaithful(Emits(FailedWith(st, InvalidRequest, Said(FirstRefusal(checks).value), []))[0], initial);
      ConsFaithful(first, Emits(FailedWith(st, InvalidRequest, Said(FirstRefusal(checks).value), [])), PLACEHOLDER);
    } else if normalized.Err? {
      EndingFaithful(Emits(FailedWith(st, InvalidRequest, Said(normalized.error), []))[0], initial);
      ConsFaithful(first, Emits(FailedWith(st, InvalidRequest, Said(normalized.error), [])), PLACEHOLDER);
    } else {
      AuthenticatedFaithful(initial, normalized.value, auth, steps);
      ConsFaithful(first, Authenticated(Noted(st, normalized.value), auth, steps), PLACEHOLDER);
    }
  }

  lemma {:induction false} AuthenticatedFaithful(initial: AssistantMessage, diagnostics: seq<Diagnostic>,
                                                 auth: Authorized, steps: seq<AdapterStep>)
    requires initial.content == []
    ensures Faithful(Authenticated(Noted(Initial(initial), diagnostics), auth, steps), initial)
  {
    var st := Noted(Initial(initial), diagnostics);
    match auth
    case Refused(text) => EndingFaithful(Emits(FailedWith(st, ErrorKind.Auth, Said(text), []))[0], initial);
    case CancelledFirst => EndingFaithful(Emits(AbortedWith(st, Cancelled))[0], initial);
    case Resolved =>
      StartShadows(initial, diagnostics);
      LoopFaithful(st, [Start(initial)], initial, None, steps);
  }

  lemma {:induction false} FaithfulAt(trace: seq<Traced>, partial: AssistantMessage, k: nat)
    requires Faithful(trace, partial) && k < |trace|
    ensures var shown := Replayed(partial, Events(trace)[..k + 1]);
            if IsTerminal(trace[k].event)
            then shown == TerminalMessage(trace[k].event) == trace[k].state.message
            else Bijective(trace[k].state) && Mirrors(trace[k].state, shown)
    decreases k
  {
    var next := Recorded(partial, trace[0].event);
    assert Events(trace) == [trace[0].event] + Events(trace[1..]);
    ReplayedCons(partial, trace[0].event, Events(trace[1..])[..k]);
    assert Events(trace)[..k + 1] == [trace[0].event] + Events(trace[1..])[..k];
    if k > 0 {
      FaithfulAt(trace[1..], next, k - 1);
    }
  }

  lemma {:induction false} ReplayedCons(m: AssistantMessage, e: AssistantMessageEvent,
                                        events: seq<AssistantMessageEvent>)
    ensures Replayed(m, [e] + events) == Replayed(Recorded(m, e), events)
    decreases |events|
  {
    if events == [] {
      assert [e] + events == [e];
      assert [e][..0] == [];
    } else {
      ReplayedCons(m, e, events[..|events| - 1]);
      assert ([e] + events)[..|events|] == [e] + events[..|events| - 1];
    }
  }

  // What the caller has been shown of block `i`.
  ghost predicate ShownOf(st: State, i: nat, shown: AssistantContent)
    requires i < |st.message.content|
  {
    exists id :: id in st.blocks && st.blocks[id].index == i &&
      shown == Shown(st.message.content[i], st.blocks[id].ended)
  }

  // After every event of every driven stream, the message shown has exactly the assembler's
  // blocks, with only the signature and redaction of unended text and thinking blocks
  // blanked: a tool call is shown in full. After the terminal event it is the assembler's
  // message.
  lemma {:induction false} StreamRefinesAssembler(initial: AssistantMessage, checks: seq<Option<string>>,
                                                  normalized: Result<seq<Diagnostic>, string>, auth: Authorized,
                                                  steps: seq<AdapterStep>, k: nat)
    requires initial.content == [] && k < |Driven(initial, checks, normalized, auth, steps)|
    ensures var trace := Driven(initial, checks, normalized, auth, steps);
            var shown := Replayed(PLACEHOLDER, Events(trace)[..k + 1]);
            var st := trace[k].state;
            && |shown.content| == |st.message.content|
            && (IsTerminal(trace[k].event) ==> shown == st.message == TerminalMessage(trace[k].event))
            && (!IsTerminal(trace[k].event) ==>
                 forall i :: 0 <= i < |shown.content| ==>
                   && ShownOf(st, i, shown.content[i])
                   && (shown.content[i].Tool? ==> shown.content[i] == st.message.content[i]))
  {
    var trace := Driven(initial, checks, normalized, auth, steps);
    DrivenFaithful(initial, checks, normalized, auth, steps);
    FaithfulAt(trace, PLACEHOLDER, k);
    if !IsTerminal(trace[k].event) {
      MirrorsEach(trace[k].state, Replayed(PLACEHOLDER, Events(trace)[..k + 1]));
    }
  }

  lemma {:induction false} MirrorsEach(st: State, shown: AssistantMessage)
    requires Bijective(st) && Mirrors(st, shown)
    ensures forall i :: 0 <= i < |shown.content| ==>
              && ShownOf(st, i, shown.content[i])
              && (shown.content[i].Tool? ==> shown.content[i] == st.message.content[i])
  {
    forall i | 0 <= i < |shown.content|
      ensures ShownOf(st, i, shown.content[i])
    {
      assert Owned(st.blocks, i);
    }
  }
}
