// The Anthropic Messages adapter: streamed wire events in, protocol events out.
module AnthropicAdapter {
  import opened Prelude
  import opened Messages
  import opened Adapters
  import opened Assembler
  import Executor
  import SseSpec

  // ---------------------------------------------------------------- the wire

  // What a `content_block_start` announces.
  datatype Opening =
    | OpensThinking(signature: Option<string>)
    | OpensRedacted(data: Option<string>)
    | OpensTool(callId: string, name: string)
    | OpensText

  datatype Piece =
    | TextPiece(text: string)
    | ThinkingPiece(thinking: string)
    | SignaturePiece(sign: string)
    | JsonPiece(fragment: string)
    | OtherPiece

  // The token counts of a `message_delta`, where given.
  datatype Counts = Counts(output: Option<nat>, cacheRead: Option<nat>, cacheWrite: Option<nat>)

  // What one SSE event turns out to be. A block start may carry its first fragment.
  datatype Payload =
    | Malformed
    | ErrorReport(report: string)
    | MessageStart(input: nat, output: nat, cacheRead: nat, cacheWrite: nat)
    | BlockStart(begun: nat, opening: Opening, firstText: Option<string>, firstThinking: Option<string>)
    | BlockDelta(extended: nat, piece: Piece)
    | BlockStop(closed: nat)
    | MessageDelta(reason: Option<string>, counts: Counts)
    | MessageStop
    | Unknown

  // How an SSE event reads, and how a failure is worded.
  datatype Wire = Wire(read: SseSpec.SseEvent -> Payload, explain: Executor.FailureCause -> Explained)

  const NO_MESSAGE_STOP := "connection closed before message_stop"

  function MapStopReason(reason: string): (r: StopReason)
    ensures r != StopReason.Pending
  {
    if reason in {"end_turn", "stop_sequence", "pause_turn", "refusal", "model_context_window_exceeded"}
    then StopReason.Stop
    else if reason == "max_tokens" then StopReason.Length
    else if reason == "tool_use" then StopReason.ToolUse
    else StopReason.Unknown
  }

  // ---------------------------------------------------------------- block tracking

  datatype WireBlock = WireBlock(kind: BlockKind, ended: bool)

  type Slots = seq<Option<WireBlock>>

  function EndEvent(kind: BlockKind, id: nat): ProtocolEvent {
    match kind
    case TextBlock => ProtocolEvent.TextEnd(id)
    case ThinkingBlock => ProtocolEvent.ThinkingEnd(id)
    case ToolBlock => ProtocolEvent.ToolCallEnd(id)
  }

  function OpeningKind(o: Opening): BlockKind {
    match o
    case OpensThinking(_) => ThinkingBlock
    case OpensRedacted(_) => ThinkingBlock
    case OpensTool(_, _) => ToolBlock
    case OpensText => TextBlock
  }

  function StartEvent(o: Opening, id: nat): ProtocolEvent {
    match o
    case OpensThinking(signature) => ProtocolEvent.ThinkingStart(id, signature, false)
    case OpensRedacted(data) => ProtocolEvent.ThinkingStart(id, data, true)
    case OpensTool(callId, name) => ProtocolEvent.ToolCallStart(id, callId, name)
    case OpensText => ProtocolEvent.TextStart(id, None)
  }

  // The fragments a block start carries, where they fit its kind.
  function FirstPieces(kind: BlockKind, id: nat, text: Option<string>, thinking: Option<string>): seq<ProtocolEvent> {
    if kind.TextBlock? && Given(text) then [ProtocolEvent.TextDelta(id, text.value)]
    else if kind.ThinkingBlock? && Given(thinking) then [ProtocolEvent.ThinkingDelta(id, thinking.value)]
    else []
  }

  function PieceEvents(id: nat, piece: Piece): seq<ProtocolEvent> {
    match piece
    case TextPiece(text) => if text == "" then [] else [ProtocolEvent.TextDelta(id, text)]
    case ThinkingPiece(thinking) => if thinking == "" then [] else [ProtocolEvent.ThinkingDelta(id, thinking)]
    case SignaturePiece(sign) => [ThinkingSignature(id, sign)]
    case JsonPiece(fragment) => [ProtocolEvent.ToolCallDelta(id, fragment)]
    case OtherPiece => []
  }

  function Resized(slots: Slots, index: nat): (r: Slots)
    ensures index < |r|
  {
    if |slots| <= index then slots + seq(index + 1 - |slots|, _ => None) else slots
  }

  // ---------------------------------------------------------------- the loop

  datatype Progress = Progress(slots: Slots, usage: Usage, reason: StopReason, raw: Option<string>, sawStop: bool)

  const NOTHING_YET: Progress := Progress([], NO_USAGE, StopReason.Stop, None, false)

  datatype Taken = Taken(progress: Progress, events: seq<ProtocolEvent>, flow: Flow)

  function Opened(p: Progress, index: nat, o: Opening, text: Option<string>, thinking: Option<string>): Taken {
    Taken(p.(slots := Resized(p.slots, index)[index := Some(WireBlock(OpeningKind(o), false))]),
          [StartEvent(o, index)] + FirstPieces(OpeningKind(o), index, text, thinking), Onward)
  }

  // A stop for a block that is unknown, out of range or already ended is passed over.
  function Stopped(p: Progress, index: nat): Taken {
    if index < |p.slots| && p.slots[index].Some? && !p.slots[index].value.ended then
      var block := p.slots[index].value;
      Taken(p.(slots := p.slots[index := Some(block.(ended := true))]), [EndEvent(block.kind, index)], Onward)
    else Taken(p, [], Onward)
  }

  function Metered(u: Usage, c: Counts): Usage {
    u.(output := c.output.GetOr(u.output), cacheRead := c.cacheRead.GetOr(u.cacheRead),
       cacheWrite := c.cacheWrite.GetOr(u.cacheWrite))
  }

  function TakePayload(p: Progress, payload: Payload): Taken {
    match payload
    case Malformed => Taken(p, [Failure(ErrorKind.Protocol, MALFORMED, [Diagnostic(ProtocolViolation, 1)])], Return)
    case ErrorReport(report) => Taken(p, [Failure(ErrorKind.Api, report, [])], Return)
    case MessageStart(input, output, cacheRead, cacheWrite) =>
      Taken(p.(usage := p.usage.(input := input, output := output, cacheRead := cacheRead, cacheWrite := cacheWrite)),
            [], Onward)
    case BlockStart(index, o, text, thinking) => Opened(p, index, o, text, thinking)
    case BlockDelta(index, piece) => Taken(p, PieceEvents(index, piece), Onward)
    case BlockStop(index) => Stopped(p, index)
    case MessageDelta(reason, counts) =>
      var metered := p.(usage := Metered(p.usage, counts));
      Taken(if reason.Some? then metered.(reason := MapStopReason(reason.value), raw := reason)
            else metered, [], Onward)
    case MessageStop => Taken(p.(sawStop := true), [], Leave)
    case Unknown => Taken(p, [], Onward)
  }

  function Take(wire: Wire, p: Progress, e: Executor.ExecutorEvent): Taken {
    match e
    case Retry(attempt, maxAttempts, delay, kind) =>
      Taken(p, [ProtocolEvent.Retry(attempt, maxAttempts, delay, kind)], Onward)
    case Established(requestId) => Taken(p, [ResponseMetadata(requestId, None)], Onward)
    case Eof => Taken(p, [], Leave)
    case Failed(kind, cause) =>
      Taken(p, [Failure(kind, wire.explain(cause).text, wire.explain(cause).diagnostics)], Return)
    case Event(sse) => TakePayload(p, wire.read(sse))
  }

  datatype Received = Received(events: seq<ProtocolEvent>, ended: Option<Progress>)

  function Receive(wire: Wire, p: Progress, input: seq<Executor.ExecutorEvent>): Received
    decreases |input|
  {
    if input == [] then Received([], Some(p))
    else
      var t := Take(wire, p, input[0]);
      match t.flow
      case Return => Received(t.events, None)
      case Leave => Received(t.events, Some(t.progress))
      case Onward =>
        var rest := Receive(wire, t.progress, input[1..]);
        Received(t.events + rest.events, rest.ended)
  }

  // ---------------------------------------------------------------- the finish

  function EndOf(slot: Option<WireBlock>, index: nat): seq<ProtocolEvent> {
    if slot.Some? && !slot.value.ended then [EndEvent(slot.value.kind, index)] else []
  }

  // The ends of the blocks the wire left open, by ascending index.
  function Closing(slots: Slots): seq<ProtocolEvent> {
    if slots == [] then [] else Closing(slots[..|slots| - 1]) + EndOf(slots[|slots| - 1], |slots| - 1)
  }

  function Totalled(u: Usage): Usage {
    u.(total := u.input + u.output + u.cacheRead + u.cacheWrite)
  }

  function Finish(p: Progress): seq<ProtocolEvent> {
    if !p.sawStop then [Failure(StreamInterrupted, NO_MESSAGE_STOP, [])]
    else Closing(p.slots) + [UsageReport(Totalled(p.usage)), StopEvent(p.reason, p.raw)]
  }

  function Streamed(wire: Wire, input: seq<Executor.ExecutorEvent>): seq<ProtocolEvent> {
    var r := Receive(wire, NOTHING_YET, input);
    r.events + if r.ended.Some? then Finish(r.ended.value) else []
  }

  // ---------------------------------------------------------------- the adapter itself

  method OpenBlock(progress: Progress, index: nat, o: Opening, text: Option<string>, thinking: Option<string>)
    returns (p: Progress, events: seq<ProtocolEvent>)
    ensures Taken(p, events, Onward) == Opened(progress, index, o, text, thinking)
  {
    p := progress;
    var kind, slots := OpeningKind(o), p.slots;
    if |slots| <= index {
      slots := slots + seq(index + 1 - |slots|, _ => None);
    }
    p := p.(slots := slots[index := Some(WireBlock(kind, false))]);
    events := [StartEvent(o, index)];
    if Given(text) && kind.TextBlock? {
      events := events + [ProtocolEvent.TextDelta(index, text.value)];
    }
    if Given(thinking) && kind.ThinkingBlock? {
      events := events + [ProtocolEvent.ThinkingDelta(index, thinking.value)];
    }
  }

  method OnePayload(progress: Progress, payload: Payload) returns (p: Progress, events: seq<ProtocolEvent>, flow: Flow)
    ensures Taken(p, events, flow) == TakePayload(progress, payload)
  {
    p, events, flow := progress, [], Onward;
    match payload {
      case Malformed =>
        events, flow := [Failure(ErrorKind.Protocol, MALFORMED, [Diagnostic(ProtocolViolation, 1)])], Return;
      case ErrorReport(report) => events, flow := [Failure(ErrorKind.Api, report, [])], Return;
      case MessageStart(input, output, cacheRead, cacheWrite) =>
        p := p.(usage := p.usage.(input := input, output := output));
        p := p.(usage := p.usage.(cacheRead := cacheRead, cacheWrite := cacheWrite));
      case BlockStart(index, o, text, thinking) => p, events := OpenBlock(p, index, o, text, thinking);
      case BlockDelta(index, piece) => events := PieceEvents(index, piece);
      case BlockStop(index) =>
        if index < |p.slots| && p.slots[index].Some? && !p.slots[index].value.ended {
          var block := p.slots[index].value;
          p := p.(slots := p.slots[index := Some(block.(ended := true))]);
          events := [EndEvent(block.kind, index)];
        }
      case MessageDelta(reason, counts) =>
        if reason.Some? {
          p := p.(reason := MapStopReason(reason.value), raw := reason);
        }
        if counts.output.Some? {
          p := p.(usage := p.usage.(output := counts.output.value));
        }
        if counts.cacheRead.Some? {
          p := p.(usage := p.usage.(cacheRead := counts.cacheRead.value));
        }
        if counts.cacheWrite.Some? {
          p := p.(usage := p.usage.(cacheWrite := counts.cacheWrite.value));
        }
      case MessageStop => p, flow := p.(sawStop := true), Leave;
      case Unknown =>
    }
  }

  method OneEvent(wire: Wire, progress: Progress, e: Executor.ExecutorEvent)
    returns (p: Progress, events: seq<ProtocolEvent>, flow: Flow)
    ensures Taken(p, events, flow) == Take(wire, progress, e)
  {
    p, events, flow := progress, [], Onward;
    match e {
      case Retry(attempt, maxAttempts, delay, kind) =>
        events := [ProtocolEvent.Retry(attempt, maxAttempts, delay, kind)];
      case Established(requestId) => events := [ResponseMetadata(requestId, None)];
      case Eof => flow := Leave;
      case Failed(kind, cause) =>
        var explained := wire.explain(cause);
        events, flow := [Failure(kind, explained.text, explained.diagnostics)], Return;
      case Event(sse) => p, events, flow := OnePayload(p, wire.read(sse));
    }
  }

  // Ends every block still open, marking it.
  method CloseBlocks(open: Slots) returns (slots: Slots, events: seq<ProtocolEvent>)
    ensures events == Closing(open)
    ensures |slots| == |open| && forall k :: 0 <= k < |open| ==>
            EndOf(slots[k], k) == [] && (slots[k].Some? <==> open[k].Some?)
  {
    slots, events := open, [];
    for i := 0 to |open|
      invariant |slots| == |open| && events == Closing(open[..i])
      invariant forall k :: i <= k < |open| ==> slots[k] == open[k]
      invariant forall k :: 0 <= k < i ==> EndOf(slots[k], k) == [] && (slots[k].Some? <==> open[k].Some?)
    {
      assert open[..i + 1][..i] == open[..i];
      if slots[i].Some? && !slots[i].value.ended {
        var block := slots[i].value;
        slots := slots[i := Some(block.(ended := true))];
        events := events + [EndEvent(block.kind, i)];
      }
    }
    assert open[..|open|] == open;
  }

  method FinishStream(p: Progress) returns (events: seq<ProtocolEvent>)
    ensures events == Finish(p)
  {
    if !p.sawStop {
      return [Failure(StreamInterrupted, NO_MESSAGE_STOP, [])];
    }
    var slots, ends := CloseBlocks(p.slots);
    var usage := p.usage.(total := p.usage.input + p.usage.output + p.usage.cacheRead + p.usage.cacheWrite);
    events := ends + [UsageReport(usage), StopEvent(p.reason, p.raw)];
  }

  // `left` is what reading the rest of the input still gives.
  ghost predicate Left(wire: Wire, p: Progress, input: seq<Executor.ExecutorEvent>, left: Received) {
    forall k {:trigger Asked(k)} :: Asked(k) ==> left == Receive(wire, p, input)
  }

  // One turn of the loop: of what is left, the first part is yielded.
  method Turn(wire: Wire, progress: Progress, e: Executor.ExecutorEvent, ghost rest: seq<Executor.ExecutorEvent>,
              ghost left: Received)
    returns (p: Progress, events: seq<ProtocolEvent>, flow: Flow, ghost after: Received)
    requires Left(wire, progress, [e] + rest, left)
    ensures left == Received(events + after.events, after.ended)
    ensures match flow
            case Onward => Left(wire, p, rest, after)
            case Leave => after == Received([], Some(p))
            case Return => after == Received([], None)
  {
    assert Asked(0);
    assert ([e] + rest)[1..] == rest;
    p, events, flow := OneEvent(wire, progress, e);
    after := if flow.Onward? then Receive(wire, p, rest) else Received([], if flow.Leave? then Some(p) else None);
    assert events + [] == events;
  }

  method Stream(wire: Wire, input: seq<Executor.ExecutorEvent>) returns (out: seq<ProtocolEvent>)
    ensures out == Streamed(wire, input)
  {
    var p := NOTHING_YET;
    out := [];
    var i := 0;
    ghost var whole := Receive(wire, NOTHING_YET, input);
    ghost var left := whole;
    assert input[0..] == input;
    while i < |input|
      invariant 0 <= i <= |input|
      invariant Left(wire, p, input[i..], left) && whole == Received(out + left.events, left.ended)
    {
      assert input[i..] == [input[i]] + input[i + 1..];
      var events, flow;
      p, events, flow, left := Turn(wire, p, input[i], input[i + 1..], left);
      assert out + (events + left.events) == (out + events) + left.events;
      out := out + events;
      i := i + 1;
      if flow.Return? {
        return;
      }
      if flow.Leave? {
        left := Received([], Some(p));
        break;
      }
    }
    assert whole == Received(out, Some(p)) by {
      assert Asked(0);
      assert out + [] == out;
    }
    var last := FinishStream(p);
    out := out + last;
  }
}
