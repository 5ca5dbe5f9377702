// The OpenAI Completions adapter: streamed chunks in, protocol events out.
module OpenAiAdapter {
  import opened Prelude
  import opened Messages
  import opened Adapters
  import opened Assembler
  import Executor
  import JsonText
  import PartialJson
  import SseSpec

  // ---------------------------------------------------------------- the wire

  datatype ToolDelta = ToolDelta(slot: nat, id: Option<string>, name: Option<string>, arguments: Option<string>)

  // The first choice of a chunk. `details` holds the well-formed reasoning details only.
  datatype Choice = Choice(
    details: seq<JsonText.Value>,
    reasoningContent: Option<string>,
    reasoning: Option<string>,
    reasoningText: Option<string>,
    content: Option<string>,
    toolCalls: seq<ToolDelta>,
    finishReason: Option<string>)

  // What one SSE payload turns out to be.
  datatype Payload =
    | Malformed
    | ErrorReport(text: string)
    | Unrecognized
    | Chunk(usage: Option<Usage>, choice: Option<Choice>)

  // The parts of the world the loop consults: how a payload reads, how a reasoning detail
  // joins those before it, how the details are written down, how a failure is worded, and
  // whether the endpoint is declared to complete by closing the connection.
  datatype Wire = Wire(
    read: SseSpec.Text -> Payload,
    join: (seq<JsonText.Value>, JsonText.Value) -> seq<JsonText.Value>,
    write: seq<JsonText.Value> -> string,
    explain: Executor.FailureCause -> Explained,
    cleanEofCompletes: bool)

  // `[DONE]`, in bytes.
  const TERMINATOR: SseSpec.Text := [91, 68, 79, 78, 69, 93]
  const UNRECOGNIZED := "unrecognized SSE chunk shape"
  const NO_COMPLETION := "connection closed before a completion signal ([DONE] or finish_reason)"

  function MapStopReason(reason: string): (r: StopReason)
    ensures r != StopReason.Pending
  {
    if reason in {"stop", "content_filter", "function_call"} then StopReason.Stop
    else if reason == "length" then StopReason.Length
    else if reason == "tool_calls" then StopReason.ToolUse
    else StopReason.Unknown
  }

  // ---------------------------------------------------------------- the slots

  // One tool call as streamed so far. `block` is `None` while the slot has only been
  // resized into existence.
  datatype ToolAccum = ToolAccum(id: string, name: string, block: Option<nat>, arguments: string)

  const UNUSED: ToolAccum := ToolAccum("", "", None, "")

  // The blocks the stream has opened.
  datatype Slots = Slots(
    next: nat,
    thinking: Option<nat>,
    details: Option<nat>,
    reasoning: seq<JsonText.Value>,
    text: Option<nat>,
    tools: seq<ToolAccum>)

  const NO_SLOTS: Slots := Slots(0, None, None, [], None, [])

  // What a piece of a chunk leaves and yields.
  datatype Emitted = Emitted(slots: Slots, events: seq<ProtocolEvent>)

  function TakeDetail(wire: Wire, s: Slots, detail: JsonText.Value): Emitted {
    var joined := s.(reasoning := wire.join(s.reasoning, detail));
    if s.details.Some? then Emitted(joined, [])
    else Emitted(joined.(details := Some(s.next), next := s.next + 1),
                 [ProtocolEvent.ThinkingStart(s.next, None, false)])
  }

  function TakeDetails(wire: Wire, s: Slots, details: seq<JsonText.Value>): Emitted
    decreases |details|
  {
    if details == [] then Emitted(s, [])
    else
      var before := TakeDetails(wire, s, details[..|details| - 1]);
      var last := TakeDetail(wire, before.slots, details[|details| - 1]);
      Emitted(last.slots, before.events + last.events)
  }

  // The first reasoning field that is not empty, and its text.
  function ReasoningDelta(c: Choice): Option<(string, string)> {
    if Given(c.reasoningContent) then Some(("reasoning_content", c.reasoningContent.value))
    else if Given(c.reasoning) then Some(("reasoning", c.reasoning.value))
    else if Given(c.reasoningText) then Some(("reasoning_text", c.reasoningText.value))
    else None
  }

  function TakeReasoning(s: Slots, delta: Option<(string, string)>): Emitted {
    if delta.None? then Emitted(s, [])
    else if s.thinking.Some? then Emitted(s, [ProtocolEvent.ThinkingDelta(s.thinking.value, delta.value.1)])
    else
      Emitted(s.(thinking := Some(s.next), next := s.next + 1),
              [ProtocolEvent.ThinkingStart(s.next, Some(delta.value.0), false),
               ProtocolEvent.ThinkingDelta(s.next, delta.value.1)])
  }

  function TakeText(s: Slots, content: Option<string>): Emitted {
    if !Given(content) then Emitted(s, [])
    else if s.text.Some? then Emitted(s, [ProtocolEvent.TextDelta(s.text.value, content.value)])
    else Emitted(s.(text := Some(s.next), next := s.next + 1),
                 [ProtocolEvent.TextStart(s.next, None), ProtocolEvent.TextDelta(s.next, content.value)])
  }

  // The slots up to `slot`, new ones unused.
  function Resized(tools: seq<ToolAccum>, slot: nat): (r: seq<ToolAccum>)
    ensures slot < |r|
  {
    if |tools| <= slot then tools + seq(slot + 1 - |tools|, _ => UNUSED) else tools
  }

  // A delta's identity and fragment put into its accumulator.
  function Updated(accum: ToolAccum, d: ToolDelta): ToolAccum {
    accum.(id := d.id.GetOr(accum.id), name := d.name.GetOr(accum.name),
           arguments := if Given(d.arguments) then accum.arguments + d.arguments.value else accum.arguments)
  }

  predicate Startable(accum: ToolAccum, d: ToolDelta) {
    accum.block.None? && (accum.id != "" || accum.name != "" || Given(d.arguments))
  }

  function TakeTool(s: Slots, d: ToolDelta): Emitted {
    var tools := Resized(s.tools, d.slot);
    var accum := Updated(tools[d.slot], d);
    if Startable(accum, d) then
      Emitted(s.(tools := tools[d.slot := accum.(block := Some(s.next))], next := s.next + 1),
              [ProtocolEvent.ToolCallStart(s.next, accum.id, accum.name)] +
              if Given(d.arguments) then [ProtocolEvent.ToolCallDelta(s.next, d.arguments.value)] else [])
    else
      Emitted(s.(tools := tools[d.slot := accum]),
              if Given(d.arguments) && accum.block.Some?
              then [ProtocolEvent.ToolCallDelta(accum.block.value, d.arguments.value)]
              else [])
  }

  function TakeTools(s: Slots, deltas: seq<ToolDelta>): Emitted
    decreases |deltas|
  {
    if deltas == [] then Emitted(s, [])
    else
      var before := TakeTools(s, deltas[..|deltas| - 1]);
      var last := TakeTool(before.slots, deltas[|deltas| - 1]);
      Emitted(last.slots, before.events + last.events)
  }

  function TakeChoice(wire: Wire, s: Slots, c: Choice): Emitted {
    var a := TakeDetails(wire, s, c.details);
    var b := TakeReasoning(a.slots, ReasoningDelta(c));
    var t := TakeText(b.slots, c.content);
    var d := TakeTools(t.slots, c.toolCalls);
    Emitted(d.slots, a.events + b.events + t.events + d.events)
  }

  // ---------------------------------------------------------------- the loop

  datatype Progress = Progress(slots: Slots, usage: Usage, reason: StopReason, raw: Option<string>, formal: bool)

  const NOTHING_YET: Progress := Progress(NO_SLOTS, NO_USAGE, StopReason.Stop, None, false)

  datatype Taken = Taken(progress: Progress, events: seq<ProtocolEvent>, flow: Flow)

  function Fault(p: Progress, kind: ErrorKind, text: string, diagnostics: seq<Diagnostic>): Taken {
    Taken(p, [Failure(kind, text, diagnostics)], Return)
  }

  function TakeChunk(wire: Wire, p: Progress, usage: Option<Usage>, choice: Option<Choice>): Taken {
    var metered := p.(usage := usage.GetOr(p.usage));
    match choice
    case None => Taken(metered, [], Onward)
    case Some(c) =>
      var e := TakeChoice(wire, p.slots, c);
      var next := metered.(slots := e.slots);
      Taken(if c.finishReason.Some? then
              next.(reason := MapStopReason(c.finishReason.value), raw := c.finishReason, formal := true)
            else next,
            e.events, Onward)
  }

  function TakeData(wire: Wire, p: Progress, data: SseSpec.Text): Taken {
    if data == TERMINATOR then Taken(p.(formal := true), [], Leave)
    else TakePayload(wire, p, wire.read(data))
  }

  function TakePayload(wire: Wire, p: Progress, payload: Payload): Taken {
    match payload
    case Malformed => Fault(p, ErrorKind.Protocol, MALFORMED, [Diagnostic(ProtocolViolation, 1)])
    case ErrorReport(text) => Fault(p, ErrorKind.Api, text, [])
    case Unrecognized => Fault(p, ErrorKind.Protocol, UNRECOGNIZED, [Diagnostic(ProtocolViolation, 1)])
    case Chunk(usage, choice) => TakeChunk(wire, p, usage, choice)
  }

  function Take(wire: Wire, p: Progress, e: Executor.ExecutorEvent): Taken {
    match e
    case Retry(attempt, maxAttempts, delay, kind) =>
      Taken(p, [ProtocolEvent.Retry(attempt, maxAttempts, delay, kind)], Onward)
    case Established(requestId) => Taken(p, [ResponseMetadata(requestId, None)], Onward)
    case Eof => Taken(p, [], Leave)
    case Failed(kind, cause) => Fault(p, kind, wire.explain(cause).text, wire.explain(cause).diagnostics)
    case Event(sse) => TakeData(wire, p, sse.data)
  }

  // All that is yielded while reading, and the progress the finish starts from.
  datatype Received = Received(events: seq<ProtocolEvent>, ended: Option<Progress>)

  function Receive(wire: Wire, p: Progress, input: seq<Executor.ExecutorEvent>): Received
    decreases |input|
  {
    if input == [] then Received([], Some(p))
    else
      var t := Take(wire, p, input[0]);
      match t.flow
      case Return => Received(t.events, None)
      case Leave => Received(t.events, Some(t.progress))
      case Onward =>
        var rest := Receive(wire, t.progress, input[1..]);
        Received(t.events + rest.events, rest.ended)
  }

  // ---------------------------------------------------------------- the finish

  // The text `str::trim` leaves.
  function TrimmedStart(s: string): string
    decreases |s|
  {
    if s != "" && PartialJson.UnicodeSpace(s[0]) then TrimmedStart(s[1..]) else s
  }

  function TrimmedEnd(s: string): (r: string)
    ensures |r| <= |s|
    decreases |s|
  {
    if s != "" && PartialJson.UnicodeSpace(s[|s| - 1]) then TrimmedEnd(s[..|s| - 1]) else s
  }

  function Trimmed(s: string): string {
    TrimmedEnd(TrimmedStart(s))
  }

  predicate ArgumentsComplete(accum: ToolAccum) {
    Trimmed(accum.arguments) == "" || PartialJson.Parse(Trimmed(accum.arguments)).Complete?
  }

  predicate StartedTool(s: Slots) {
    exists k :: 0 <= k < |s.tools| && s.tools[k].block.Some?
  }

  // What a declared clean EOF infers completion from.
  predicate Inferred(wire: Wire, s: Slots) {
    && wire.cleanEofCompletes
    && (s.thinking.Some? || s.text.Some? || StartedTool(s))
    && forall k :: 0 <= k < |s.tools| ==> ArgumentsComplete(s.tools[k])
  }

  function CloseTools(tools: seq<ToolAccum>): seq<ProtocolEvent> {
    if tools == [] then []
    else
      CloseTools(tools[..|tools| - 1]) +
      if tools[|tools| - 1].block.Some? then [ProtocolEvent.ToolCallEnd(tools[|tools| - 1].block.value)] else []
  }

  function Closing(wire: Wire, s: Slots): seq<ProtocolEvent> {
    (if s.details.Some? then [ThinkingSignature(s.details.value, wire.write(s.reasoning)),
                              ProtocolEvent.ThinkingEnd(s.details.value)] else []) +
    (if s.thinking.Some? then [ProtocolEvent.ThinkingEnd(s.thinking.value)] else []) +
    (if s.text.Some? then [ProtocolEvent.TextEnd(s.text.value)] else []) +
    CloseTools(s.tools)
  }

  function FinalReason(p: Progress): StopReason {
    if p.formal then p.reason else if StartedTool(p.slots) then StopReason.ToolUse else StopReason.Stop
  }

  predicate Completes(wire: Wire, p: Progress) {
    p.formal || Inferred(wire, p.slots)
  }

  function Finish(wire: Wire, p: Progress): seq<ProtocolEvent> {
    if !Completes(wire, p) then [Failure(StreamInterrupted, NO_COMPLETION, [])]
    else Closing(wire, p.slots) + [UsageReport(p.usage), StopEvent(FinalReason(p), p.raw)]
  }

  // All that the adapter yields.
  function Streamed(wire: Wire, input: seq<Executor.ExecutorEvent>): seq<ProtocolEvent> {
    var r := Receive(wire, NOTHING_YET, input);
    r.events + if r.ended.Some? then Finish(wire, r.ended.value) else []
  }

  // ---------------------------------------------------------------- the adapter itself

  method DetailLoop(wire: Wire, slots: Slots, details: seq<JsonText.Value>)
    returns (s: Slots, events: seq<ProtocolEvent>)
    ensures Emitted(s, events) == TakeDetails(wire, slots, details)
  {
    s, events := slots, [];
    for i := 0 to |details|
      invariant Emitted(s, events) == TakeDetails(wire, slots, details[..i])
    {
      assert details[..i + 1][..i] == details[..i];
      if s.details.None? {
        var id := s.next;
        s := s.(next := s.next + 1);
        s := s.(details := Some(id));
        events := events + [ProtocolEvent.ThinkingStart(id, None, false)];
      }
      s := s.(reasoning := wire.join(s.reasoning, details[i]));
    }
    assert details[..|details|] == details;
  }

  method ToolLoop(slots: Slots, deltas: seq<ToolDelta>) returns (s: Slots, events: seq<ProtocolEvent>)
    ensures Emitted(s, events) == TakeTools(slots, deltas)
  {
    s, events := slots, [];
    for i := 0 to |deltas|
      invariant Emitted(s, events) == TakeTools(slots, deltas[..i])
    {
      assert deltas[..i + 1][..i] == deltas[..i];
      var now;
      s, now := OneTool(s, deltas[i]);
      events := events + now;
    }
    assert deltas[..|deltas|] == deltas;
  }

  method OneTool(slots: Slots, d: ToolDelta) returns (s: Slots, events: seq<ProtocolEvent>)
    ensures Emitted(s, events) == TakeTool(slots, d)
  {
    s, events := slots, [];
    var tools := s.tools;
    if |tools| <= d.slot {
      tools := tools + seq(d.slot + 1 - |tools|, _ => UNUSED);
    }
    var accum := tools[d.slot];
    if d.id.Some? {
      accum := accum.(id := d.id.value);
    }
    if d.name.Some? {
      accum := accum.(name := d.name.value);
    }
    if Given(d.arguments) {
      accum := accum.(arguments := accum.arguments + d.arguments.value);
    }
    if accum.block.None? && (accum.id != "" || accum.name != "" || Given(d.arguments)) {
      accum := accum.(block := Some(s.next));
      s := s.(next := s.next + 1);
      events := [ProtocolEvent.ToolCallStart(accum.block.value, accum.id, accum.name)];
    }
    s := s.(tools := tools[d.slot := accum]);
    if Given(d.arguments) {
      events := events + [ProtocolEvent.ToolCallDelta(accum.block.value, d.arguments.value)];
    }
  }

  method ReasoningEvents(slots: Slots, delta: Option<(string, string)>) returns (s: Slots, events: seq<ProtocolEvent>)
    ensures Emitted(s, events) == TakeReasoning(slots, delta)
  {
    s, events := slots, [];
    if delta.Some? {
      if s.thinking.None? {
        s := s.(thinking := Some(s.next), next := s.next + 1);
        events := [ProtocolEvent.ThinkingStart(s.thinking.value, Some(delta.value.0), false)];
      }
      events := events + [ProtocolEvent.ThinkingDelta(s.thinking.value, delta.value.1)];
    }
  }

  method TextEvents(slots: Slots, content: Option<string>) returns (s: Slots, events: seq<ProtocolEvent>)
    ensures Emitted(s, events) == TakeText(slots, content)
  {
    s, events := slots, [];
    if Given(content) {
      if s.text.None? {
        s := s.(text := Some(s.next), next := s.next + 1);
        events := [ProtocolEvent.TextStart(s.text.value, None)];
      }
      events := events + [ProtocolEvent.TextDelta(s.text.value, content.value)];
    }
  }

  method ChoiceEvents(wire: Wire, slots: Slots, c: Choice) returns (s: Slots, events: seq<ProtocolEvent>)
    ensures Emitted(s, events) == TakeChoice(wire, slots, c)
  {
    s, events := DetailLoop(wire, slots, c.details);
    var reasoning, text, calls;
    s, reasoning := ReasoningEvents(s, ReasoningDelta(c));
    s, text := TextEvents(s, c.content);
    s, calls := ToolLoop(s, c.toolCalls);
    events := events + reasoning + text + calls;
  }

  method OneEvent(wire: Wire, progress: Progress, e: Executor.ExecutorEvent)
    returns (p: Progress, events: seq<ProtocolEvent>, flow: Flow)
    ensures Taken(p, events, flow) == Take(wire, progress, e)
  {
    p, events, flow := progress, [], Onward;
    match e {
      case Retry(attempt, maxAttempts, delay, kind) =>
        events := [ProtocolEvent.Retry(attempt, maxAttempts, delay, kind)];
      case Established(requestId) => events := [ResponseMetadata(requestId, None)];
      case Eof => flow := Leave;
      case Failed(kind, cause) =>
        var explained := wire.explain(cause);
        events, flow := [Failure(kind, explained.text, explained.diagnostics)], Return;
      case Event(sse) =>
        if sse.data == TERMINATOR {
          p, flow := p.(formal := true), Leave;
        } else {
          p, events, flow := OnePayload(wire, p, wire.read(sse.data));
        }
    }
  }

  method OnePayload(wire: Wire, progress: Progress, payload: Payload)
    returns (p: Progress, events: seq<ProtocolEvent>, flow: Flow)
    ensures Taken(p, events, flow) == TakePayload(wire, progress, payload)
  {
    p, events, flow := progress, [], Return;
    match payload {
      case Malformed => events := [Failure(ErrorKind.Protocol, MALFORMED, [Diagnostic(ProtocolViolation, 1)])];
      case ErrorReport(text) => events := [Failure(ErrorKind.Api, text, [])];
      case Unrecognized => events := [Failure(ErrorKind.Protocol, UNRECOGNIZED, [Diagnostic(ProtocolViolation, 1)])];
      case Chunk(usage, choice) =>
        flow := Onward;
        if usage.Some? {
          p := p.(usage := usage.value);
        }
        if choice.Some? {
          var s;
          s, events := ChoiceEvents(wire, p.slots, choice.value);
          p := p.(slots := s);
          if choice.value.finishReason.Some? {
            p := p.(reason := MapStopReason(choice.value.finishReason.value));
            p := p.(raw := choice.value.finishReason);
            p := p.(formal := true);
          }
        }
    }
  }

  method CloseBlocks(wire: Wire, s: Slots) returns (events: seq<ProtocolEvent>)
    ensures events == Closing(wire, s)
  {
    events := [];
    if s.details.Some? {
      events := events + [ThinkingSignature(s.details.value, wire.write(s.reasoning)),
                          ProtocolEvent.ThinkingEnd(s.details.value)];
    }
    if s.thinking.Some? {
      events := events + [ProtocolEvent.ThinkingEnd(s.thinking.value)];
    }
    if s.text.Some? {
      events := events + [ProtocolEvent.TextEnd(s.text.value)];
    }
    ghost var before := events;
    for i := 0 to |s.tools|
      invariant events == before + CloseTools(s.tools[..i])
    {
      assert s.tools[..i + 1][..i] == s.tools[..i];
      if s.tools[i].block.Some? {
        events := events + [ProtocolEvent.ToolCallEnd(s.tools[i].block.value)];
      }
    }
    assert s.tools[..|s.tools|] == s.tools;
  }

  method FinishStream(wire: Wire, p: Progress) returns (events: seq<ProtocolEvent>)
    ensures events == Finish(wire, p)
  {
    if !Completes(wire, p) {
      return [Failure(StreamInterrupted, NO_COMPLETION, [])];
    }
    var ends := CloseBlocks(wire, p.slots);
    events := ends + [UsageReport(p.usage), StopEvent(FinalReason(p), p.raw)];
  }

  // `left` is what reading the rest of the input still gives.
  ghost predicate Left(wire: Wire, p: Progress, input: seq<Executor.ExecutorEvent>, left: Received) {
    forall k {:trigger Asked(k)} :: Asked(k) ==> left == Receive(wire, p, input)
  }

  // One turn of the loop: of what is left, the first part is yielded.
  method Turn(wire: Wire, progress: Progress, e: Executor.ExecutorEvent, ghost rest: seq<Executor.ExecutorEvent>,
              ghost left: Received)
    returns (p: Progress, events: seq<ProtocolEvent>, flow: Flow, ghost after: Received)
    requires Left(wire, progress, [e] + rest, left)
    ensures left == Received(events + after.events, after.ended)
    ensures match flow
            case Onward => Left(wire, p, rest, after)
            case Leave => after == Received([], Some(p))
            case Return => after == Received([], None)
  {
    assert Asked(0);
    assert ([e] + rest)[1..] == rest;
    p, events, flow := OneEvent(wire, progress, e);
    after := if flow.Onward? then Receive(wire, p, rest) else Received([], if flow.Leave? then Some(p) else None);
    assert events + [] == events;
  }

  method Stream(wire: Wire, input: seq<Executor.ExecutorEvent>) returns (out: seq<ProtocolEvent>)
    ensures out == Streamed(wire, input)
  {
    var p := NOTHING_YET;
    out := [];
    var i := 0;
    ghost var whole := Receive(wire, NOTHING_YET, input);
    ghost var left := whole;
    assert input[0..] == input;
    while i < |input|
      invariant 0 <= i <= |input|
      invariant Left(wire, p, input[i..], left) && whole == Received(out + left.events, left.ended)
    {
      assert input[i..] == [input[i]] + input[i + 1..];
      var events, flow;
      p, events, flow, left := Turn(wire, p, input[i], input[i + 1..], left);
      assert out + (events + left.events) == (out + events) + left.events;
      out := out + events;
      i := i + 1;
      if flow.Return? {
        return;
      }
      if flow.Leave? {
        left := Received([], Some(p));
        break;
      }
    }
    assert whole == Received(out, Some(p)) by {
      assert Asked(0);
      assert out + [] == out;
    }
    var last := FinishStream(wire, p);
    out := out + last;
  }
}
