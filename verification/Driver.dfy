// Driving an adapter: one `Start`, the assembled events, exactly one terminal event.
module Driver {
  import opened Prelude
  import opened Messages
  import opened Assembler

  // What waiting for the adapter gives: an event, or the caller's cancellation.
  datatype AdapterStep = Next(event: ProtocolEvent) | Cancel

  // How resolving the request's authentication ends.
  datatype Authorized = Resolved | Refused(text: string) | CancelledFirst

  // An emitted event, and the assembler's state right after it.
  datatype Traced = Traced(event: AssistantMessageEvent, state: State)

  function Emits(a: Applied): seq<Traced> {
    if a.event.Some? then [Traced(a.event.value, a.state)] else []
  }

  function NormalizedStop(e: ProtocolEvent): Option<StopReason> {
    match e
    case Stop(reason) => Some(reason)
    case StopWithRaw(reason, _) => Some(reason)
    case _ => None
  }

  // What one turn of the event loop leaves: the assembler, the stop reason seen so far,
  // what is yielded, and whether the stream returns.
  datatype Turned = Turned(state: State, reason: Option<StopReason>, event: Option<AssistantMessageEvent>, last: bool)

  function Turn(st: State, reason: Option<StopReason>, step: AdapterStep): (t: Turned)
    requires Placed(st)
    ensures Placed(t.state) && (t.last ==> t.event.Some?)
  {
    match step
    case Cancel => var a := AbortedWith(st, Cancelled); Turned(a.state, reason, a.event, true)
    case Next(e) =>
      if NormalizedStop(e) == Some(StopReason.Pending) then
        var a := FailedWith(st, ErrorKind.Protocol, PendingStop, []);
        Turned(a.state, reason, a.event, true)
      else
        var a := Step(st, e);
        Turned(a.state, if NormalizedStop(e).Some? then NormalizedStop(e) else reason,
               a.event, a.event.Some? && a.event.value.Failed?)
  }

  // What is yielded once the adapter's stream has ended.
  function Ending(st: State, reason: Option<StopReason>): Traced {
    match reason
    case None =>
      var a := FailedWith(st, ErrorKind.Protocol, NoTerminal, []);
      Traced(a.event.value, a.state)
    case Some(r) => Traced(Done(r, st.message), st)
  }

  // The event loop. `steps` is all that the adapter will produce before its stream ends.
  function Loop(st: State, reason: Option<StopReason>, steps: seq<AdapterStep>): seq<Traced>
    requires Placed(st)
    decreases |steps|
  {
    if steps == [] then [Ending(st, reason)]
    else
      var t := Turn(st, reason, steps[0]);
      (if t.event.Some? then [Traced(t.event.value, t.state)] else []) +
      (if t.last then [] else Loop(t.state, t.reason, steps[1..]))
  }

  // The first preflight that refuses the request.
  function FirstRefusal(checks: seq<Option<string>>): Option<string> {
    if checks == [] then None
    else if checks[0].Some? then checks[0]
    else FirstRefusal(checks[1..])
  }

  function Noted(st: State, diagnostics: seq<Diagnostic>): (r: State)
    requires Placed(st)
    ensures Placed(r) && r.blocks == st.blocks && r.message.content == st.message.content
    decreases |diagnostics|
  {
    if diagnostics == [] then st
    else Noted(Step(st, Report(diagnostics[0])).state, diagnostics[1..])
  }

  // The whole trace.
  function Driven(initial: AssistantMessage, checks: seq<Option<string>>, normalized: Result<seq<Diagnostic>, string>,
                  auth: Authorized, steps: seq<AdapterStep>): seq<Traced>
  {
    var st := Initial(initial);
    [Traced(Start(initial), st)] + (
      if FirstRefusal(checks).Some? then
        Emits(FailedWith(st, InvalidRequest, Said(FirstRefusal(checks).value), []))
      else
        match normalized
        case Err(text) => Emits(FailedWith(st, InvalidRequest, Said(text), []))
        case Ok(diagnostics) => Authenticated(Noted(st, diagnostics), auth, steps))
  }

  function Authenticated(st: State, auth: Authorized, steps: seq<AdapterStep>): seq<Traced>
    requires Placed(st)
  {
    match auth
    case Refused(text) => Emits(FailedWith(st, ErrorKind.Auth, Said(text), []))
    case CancelledFirst => Emits(AbortedWith(st, Cancelled))
    case Resolved => Loop(st, None, steps)
  }

  // What the caller sees of a trace.
  function Events(trace: seq<Traced>): (events: seq<AssistantMessageEvent>)
    ensures |events| == |trace|
  {
    if trace == [] then [] else [trace[0].event] + Events(trace[1..])
  }

  lemma {:induction false} EventsAppend(a: seq<Traced>, b: seq<Traced>)
    ensures Events(a + b) == Events(a) + Events(b)
    decreases |a|
  {
    if a == [] {
      assert a + b == b;
    } else {
      assert (a + b)[1..] == a[1..] + b;
      EventsAppend(a[1..], b);
    }
  }

  lemma {:induction false} EventsAt(trace: seq<Traced>, k: nat)
    requires k < |trace|
    ensures Events(trace)[k] == trace[k].event && Events(trace)[..k] == Events(trace[..k])
    decreases k
  {
    EventsAppend(trace[..k], trace[k..]);
    assert trace == trace[..k] + trace[k..];
    assert trace[k..][0] == trace[k];
  }

  // The driver itself. `out` collects what the stream yields.
  method Drive(initial: AssistantMessage, checks: seq<Option<string>>, normalized: Result<seq<Diagnostic>, string>,
               auth: Authorized, steps: seq<AdapterStep>) returns (out: seq<AssistantMessageEvent>)
    ensures out == Events(Driven(initial, checks, normalized, auth, steps))
  {
    var assembler := new MessageAssembler(initial);
    out := [Start(initial)];
    var c := 0;
    while c < |checks|
      invariant 0 <= c <= |checks| && assembler.View() == Initial(initial)
      invariant FirstRefusal(checks[c..]) == FirstRefusal(checks)
    {
      if checks[c].Some? {
        var failed := assembler.Fail(InvalidRequest, Said(checks[c].value), []);
        return out + [failed];
      }
      c := c + 1;
    }
    if normalized.Err? {
      var failed := assembler.Fail(InvalidRequest, Said(normalized.error), []);
      return out + [failed];
    }
    var d := 0;
    while d < |normalized.value|
      invariant 0 <= d <= |normalized.value| && assembler.Valid()
      invariant Noted(assembler.View(), normalized.value[d..]) == Noted(Initial(initial), normalized.value)
    {
      var none := assembler.Apply(Report(normalized.value[d]));
      d := d + 1;
    }
    match auth
    case Refused(text) =>
      var failed := assembler.Fail(ErrorKind.Auth, Said(text), []);
      out := out + [failed];
    case CancelledFirst =>
      var aborted := assembler.Abort(Cancelled);
      out := out + [aborted];
    case Resolved =>
      var rest := RunLoop(assembler, steps, Events(Loop(assembler.View(), None, steps)));
      out := out + rest;
      EventsAppend([Traced(Start(initial), Initial(initial))],
                   Loop(Noted(Initial(initial), normalized.value), None, steps));
  }

  lemma {:induction false} LoopTurn(st: State, reason: Option<StopReason>, steps: seq<AdapterStep>)
    requires Placed(st) && steps != []
    ensures var t := Turn(st, reason, steps[0]);
            Events(Loop(st, reason, steps)) ==
            (if t.event.Some? then [t.event.value] else []) +
            (if t.last then [] else Events(Loop(t.state, t.reason, steps[1..])))
  {
    var t := Turn(st, reason, steps[0]);
    var here := if t.event.Some? then [Traced(t.event.value, t.state)] else [];
    var rest := if t.last then [] else Loop(t.state, t.reason, steps[1..]);
    EventsAppend(here, rest);
  }

  method TakeTurn(assembler: MessageAssembler, reason: Option<StopReason>, step: AdapterStep)
    returns (next: Option<StopReason>, public: Option<AssistantMessageEvent>, last: bool)
    requires assembler.Valid()
    modifies assembler
    ensures assembler.Valid()
    ensures Turned(assembler.View(), next, public, last) == Turn(old(assembler.View()), reason, step)
  {
    next := reason;
    if step.Cancel? {
      var aborted := assembler.Abort(Cancelled);
      return next, Some(aborted), true;
    }
    var stop := NormalizedStop(step.event);
    if stop.Some? {
      if stop.value == StopReason.Pending {
        var failed := assembler.Fail(ErrorKind.Protocol, PendingStop, []);
        return next, Some(failed), true;
      }
      next := stop;
    }
    public := assembler.Apply(step.event);
    last := public.Some? && public.value.Failed?;
  }

  // `left` is what remains to be yielded. The equation stands under a quantifier so that
  // it is looked at only where a proof asks for it.
  ghost predicate Remains(st: State, reason: Option<StopReason>, steps: seq<AdapterStep>,
                          left: seq<AssistantMessageEvent>) {
    Placed(st) && forall k {:trigger Asked(k)} :: Asked(k) ==> left == Events(Loop(st, reason, steps))
  }

  function Now(public: Option<AssistantMessageEvent>): seq<AssistantMessageEvent> {
    if public.Some? then [public.value] else []
  }

  // One turn: of what remains, the first part is yielded.
  method AdvanceLoop(assembler: MessageAssembler, reason: Option<StopReason>, step: AdapterStep,
                     ghost rest: seq<AdapterStep>, ghost left: seq<AssistantMessageEvent>)
    returns (next: Option<StopReason>, public: Option<AssistantMessageEvent>, last: bool,
             ghost after: seq<AssistantMessageEvent>)
    requires Remains(assembler.View(), reason, [step] + rest, left)
    modifies assembler
    ensures left == Now(public) + after && (last ==> after == [])
    ensures !last ==> Remains(assembler.View(), next, rest, after)
  {
    assert Asked(0);
    LoopTurn(assembler.View(), reason, [step] + rest);
    next, public, last := TakeTurn(assembler, reason, step);
    assert ([step] + rest)[1..] == rest;
    after := if last then [] else Events(Loop(assembler.View(), next, rest));
  }

  // What is yielded once the adapter's stream has ended.
  method EndLoop(assembler: MessageAssembler, reason: Option<StopReason>, ghost left: seq<AssistantMessageEvent>)
    returns (event: AssistantMessageEvent)
    requires Remains(assembler.View(), reason, [], left)
    modifies assembler
    ensures left == [event]
  {
    assert Asked(0);
    match reason
    case None => event := assembler.Fail(ErrorKind.Protocol, NoTerminal, []);
    case Some(r) => event := Done(r, assembler.message);
  }

  method RunLoop(assembler: MessageAssembler, steps: seq<AdapterStep>, ghost all: seq<AssistantMessageEvent>)
    returns (out: seq<AssistantMessageEvent>)
    requires Remains(assembler.View(), None, steps, all)
    modifies assembler
    ensures out == all
  {
    var stopReason: Option<StopReason> := None;
    out := [];
    ghost var left := all;
    var i := 0;
    while i < |steps|
      invariant 0 <= i <= |steps|
      invariant Remains(assembler.View(), stopReason, steps[i..], left)
      invariant all == out + left
    {
      assert steps[i..] == [steps[i]] + steps[i + 1..];
      ghost var before := left;
      var public, last;
      stopReason, public, last, left := AdvanceLoop(assembler, stopReason, steps[i], steps[i + 1..], left);
      assert out + (Now(public) + left) == (out + Now(public)) + left;
      i := i + 1;
      out := out + Now(public);
      if last {
        return;
      }
    }
    var event := EndLoop(assembler, stopReason, left);
    out := out + [event];
  }
}
