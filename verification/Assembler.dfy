// The message assembler: protocol events in, the assembled message and public events out.
module Assembler {
  import opened Prelude
  import opened Messages
  import PartialJson

  datatype ProtocolEvent =
    | TextStart(id: nat, signature: Option<string>)
    | TextDelta(id: nat, delta: string)
    | TextEnd(id: nat)
    | ThinkingStart(id: nat, signature: Option<string>, redacted: bool)
    | ThinkingDelta(id: nat, delta: string)
    | ThinkingSignature(id: nat, sign: string)
    | ThinkingEnd(id: nat)
    | ToolCallStart(id: nat, callId: string, name: string)
    | ToolCallDelta(id: nat, delta: string)
    | ToolCallEnd(id: nat)
    | UsageReport(usage: Usage)
    | ResponseMetadata(responseId: Option<string>, responseModel: Option<string>)
    | Report(diagnostic: Diagnostic)
    | Retry(attempt: nat, maxAttempts: nat, delay: nat, kind: ErrorKind)
    | Stop(reason: StopReason)
    | StopWithRaw(reason: StopReason, raw: string)
    | Failure(kind: ErrorKind, text: string, diagnostics: seq<Diagnostic>)

  predicate IsContentEvent(e: ProtocolEvent) {
    || e.TextStart? || e.TextDelta? || e.TextEnd?
    || e.ThinkingStart? || e.ThinkingDelta? || e.ThinkingSignature? || e.ThinkingEnd?
    || e.ToolCallStart? || e.ToolCallDelta? || e.ToolCallEnd?
  }

  datatype Block = Block(kind: BlockKind, index: nat, ended: bool)

  // The assembler's fields as a value.
  datatype State = State(message: AssistantMessage, blocks: map<nat, Block>, stopped: bool)

  function Initial(message: AssistantMessage): State {
    State(message, map[], false)
  }

  // What a call leaves and returns.
  datatype Applied = Applied(state: State, event: Option<AssistantMessageEvent>)

  // ---------------------------------------------------------------- looking blocks up

  function Lookup(blocks: map<nat, Block>, id: nat, expected: BlockKind): Result<nat, ErrorText> {
    if id !in blocks then Err(UnknownBlock(id))
    else if blocks[id].ended then Err(EndedBlock(id))
    else if blocks[id].kind != expected then Err(KindMismatch(id))
    else Ok(blocks[id].index)
  }

  function Ended(blocks: map<nat, Block>, id: nat): map<nat, Block> {
    if id in blocks then blocks[id := blocks[id].(ended := true)] else blocks
  }

  // ---------------------------------------------------------------- failing

  function LibraryStop(m: AssistantMessage, reason: StopReason): AssistantMessage {
    m.(stopReason := reason, rawStopReason := None)
  }

  function Violated(st: State, text: ErrorText): Applied {
    var m := LibraryStop(st.message, StopReason.Error).(
      errorKind := Some(ErrorKind.Protocol),
      errorMessage := Some(text),
      diagnostics := st.message.diagnostics + [Diagnostic(ProtocolViolation, 1)]);
    Applied(st.(message := m), Some(Failed(StopReason.Error, m)))
  }

  function FailedWith(st: State, kind: ErrorKind, text: ErrorText, diagnostics: seq<Diagnostic>): Applied {
    var m := LibraryStop(st.message, StopReason.Error).(
      diagnostics := st.message.diagnostics + diagnostics,
      errorKind := Some(kind),
      errorMessage := Some(text));
    Applied(st.(message := m), Some(Failed(StopReason.Error, m)))
  }

  function AbortedWith(st: State, text: ErrorText): Applied {
    var m := LibraryStop(st.message, StopReason.Aborted).(errorMessage := Some(text));
    Applied(State(m, st.blocks, true), Some(Failed(StopReason.Aborted, m)))
  }

  // ---------------------------------------------------------------- applying events

  // Every block the map knows has its content, of its kind.
  predicate Placed(st: State) {
    forall id :: id in st.blocks ==>
      st.blocks[id].index < |st.message.content| &&
      KindOf(st.message.content[st.blocks[id].index]) == st.blocks[id].kind
  }

  function Begun(st: State, id: nat, content: AssistantContent, public: AssistantMessageEvent): (r: Applied)
    ensures Placed(st) ==> Placed(r.state)
  {
    if id in st.blocks then Violated(st, DuplicateStart(id))
    else
      Applied(
        State(st.message.(content := st.message.content + [content]),
              st.blocks[id := Block(KindOf(content), |st.message.content|, false)],
              st.stopped),
        Some(public))
  }

  // The content at `i` becomes `content`.
  function Replaced(st: State, i: nat, content: AssistantContent): State
    requires i < |st.message.content|
  {
    st.(message := st.message.(content := st.message.content[i := content]))
  }

  // The content at `i` with `delta` appended to its streamed text.
  function Grown(c: AssistantContent, delta: string): AssistantContent {
    match c
    case Text(t) => Text(t.(text := t.text + delta))
    case Thinking(t) => Thinking(t.(thinking := t.thinking + delta))
    case Tool(call) => Tool(Appended(call, delta))
  }

  function Extended(st: State, id: nat, kind: BlockKind, delta: string): (r: Applied)
    requires Placed(st)
    ensures Placed(r.state)
  {
    match Lookup(st.blocks, id, kind)
    case Err(text) => Violated(st, text)
    case Ok(i) =>
      Applied(Replaced(st, i, Grown(st.message.content[i], delta)),
              Some(match kind
                   case TextBlock => AssistantMessageEvent.TextDelta(i, delta)
                   case ThinkingBlock => AssistantMessageEvent.ThinkingDelta(i, delta)
                   case ToolBlock => AssistantMessageEvent.ToolCallDelta(i, delta)))
  }

  function Signed(st: State, id: nat, sign: string): (r: Applied)
    requires Placed(st)
    ensures Placed(r.state)
  {
    match Lookup(st.blocks, id, ThinkingBlock)
    case Err(text) => Violated(st, text)
    case Ok(i) =>
      Applied(Replaced(st, i, Thinking(st.message.content[i].thinking.(signature := Some(sign)))), None)
  }

  function Closed(st: State, id: nat, kind: BlockKind): (r: Applied)
    requires Placed(st)
    ensures Placed(r.state)
  {
    match Lookup(st.blocks, id, kind)
    case Err(text) => Violated(st, text)
    case Ok(i) =>
      var ended := st.(blocks := Ended(st.blocks, id));
      match st.message.content[i]
      case Text(t) => Applied(ended, Some(AssistantMessageEvent.TextEnd(i, t)))
      case Thinking(t) => Applied(ended, Some(AssistantMessageEvent.ThinkingEnd(i, t)))
      case Tool(call) =>
        match PartialJson.Parse(RawOf(call))
        case Invalid => Violated(ended, UnrepairableArguments(call.name))
        case Complete(v) => Finished(ended, i, call.(arguments := v))
        case Partial(v) => Finished(ended, i, call.(arguments := v))
  }

  function Finished(ended: State, i: nat, call: ToolCall): Applied
    requires i < |ended.message.content|
  {
    Applied(Replaced(ended, i, Tool(call)), Some(AssistantMessageEvent.ToolCallEnd(i, call)))
  }

  function Either<T>(found: Option<T>, otherwise: Option<T>): Option<T> {
    if found.Some? then found else otherwise
  }

  function Step(st: State, e: ProtocolEvent): (r: Applied)
    requires Placed(st)
    ensures Placed(r.state)
  {
    if st.stopped && IsContentEvent(e) then Violated(st, ContentAfterStop)
    else
      match e
      case TextStart(id, signature) =>
        Begun(st, id, Text(TextContent("", signature)), AssistantMessageEvent.TextStart(|st.message.content|))
      case TextDelta(id, delta) => Extended(st, id, TextBlock, delta)
      case TextEnd(id) => Closed(st, id, TextBlock)
      case ThinkingStart(id, signature, redacted) =>
        Begun(st, id, Thinking(ThinkingContent("", signature, redacted)),
              AssistantMessageEvent.ThinkingStart(|st.message.content|))
      case ThinkingDelta(id, delta) => Extended(st, id, ThinkingBlock, delta)
      case ThinkingSignature(id, sign) => Signed(st, id, sign)
      case ThinkingEnd(id) => Closed(st, id, ThinkingBlock)
      case ToolCallStart(id, callId, name) =>
        Begun(st, id, Tool(ToolCall(callId, name, PartialJson.EMPTY_OBJECT, None)),
              AssistantMessageEvent.ToolCallStart(|st.message.content|, callId, name))
      case ToolCallDelta(id, delta) => Extended(st, id, ToolBlock, delta)
      case ToolCallEnd(id) => Closed(st, id, ToolBlock)
      case _ => StepOther(st, e)
  }

  // Events that touch no block.
  function StepOther(st: State, e: ProtocolEvent): (r: Applied)
    requires !IsContentEvent(e)
    ensures r.state.blocks == st.blocks && r.state.message.content == st.message.content
  {
    match e
    case UsageReport(usage) => Applied(st.(message := st.message.(usage := usage)), None)
    case ResponseMetadata(responseId, responseModel) =>
      Applied(st.(message := st.message.(
        responseId := Either(responseId, st.message.responseId),
        responseModel := Either(responseModel, st.message.responseModel))), None)
    case Report(d) => Applied(st.(message := st.message.(diagnostics := st.message.diagnostics + [d])), None)
    case Retry(attempt, maxAttempts, delay, kind) =>
      Applied(st, Some(AssistantMessageEvent.Retry(attempt, maxAttempts, delay, kind)))
    case Stop(reason) => Applied(State(st.message.(stopReason := reason), st.blocks, true), None)
    case StopWithRaw(reason, raw) =>
      Applied(State(st.message.(stopReason := reason, rawStopReason := Some(raw)), st.blocks, true), None)
    case Failure(kind, text, diagnostics) => FailedWith(st, kind, Said(text), diagnostics)
  }

  // ---------------------------------------------------------------- the class

  class MessageAssembler {
    var message: AssistantMessage
    var blocks: map<nat, Block>
    var stopped: bool

    function View(): State
      reads this
    {
      State(message, blocks, stopped)
    }

    ghost predicate Valid()
      reads this
    {
      Placed(View())
    }

    constructor (initial: AssistantMessage)
      ensures Valid() && View() == Initial(initial)
    {
      message, blocks, stopped := initial, map[], false;
    }

    method SetLibraryStopReason(reason: StopReason)
      modifies this`message
      ensures message == LibraryStop(old(message), reason)
    {
      message := message.(stopReason := reason);
      message := message.(rawStopReason := None);
    }

    method Violation(text: ErrorText) returns (event: AssistantMessageEvent)
      modifies this`message
      ensures Applied(View(), Some(event)) == Violated(old(View()), text)
    {
      SetLibraryStopReason(StopReason.Error);
      message := message.(errorKind := Some(ErrorKind.Protocol));
      message := message.(errorMessage := Some(text));
      message := message.(diagnostics := message.diagnostics + [Diagnostic(ProtocolViolation, 1)]);
      event := Failed(StopReason.Error, message);
    }

    method Fail(kind: ErrorKind, text: ErrorText, diagnostics: seq<Diagnostic>) returns (event: AssistantMessageEvent)
      modifies this`message
      ensures Applied(View(), Some(event)) == FailedWith(old(View()), kind, text, diagnostics)
    {
      message := message.(diagnostics := message.diagnostics + diagnostics);
      SetLibraryStopReason(StopReason.Error);
      message := message.(errorKind := Some(kind));
      message := message.(errorMessage := Some(text));
      event := Failed(StopReason.Error, message);
    }

    method Abort(text: ErrorText) returns (event: AssistantMessageEvent)
      modifies this
      ensures Applied(View(), Some(event)) == AbortedWith(old(View()), text)
    {
      stopped := true;
      SetLibraryStopReason(StopReason.Aborted);
      message := message.(errorMessage := Some(text));
      event := Failed(StopReason.Aborted, message);
    }

    // Reserves the next content index for a block.
    method StartBlock(id: nat, kind: BlockKind) returns (r: Result<nat, ErrorText>)
      modifies this`blocks
      ensures id in old(blocks) ==> r == Err(DuplicateStart(id)) && blocks == old(blocks)
      ensures id !in old(blocks) ==>
              r == Ok(|message.content|) && blocks == old(blocks)[id := Block(kind, |message.content|, false)]
    {
      if id in blocks {
        return Err(DuplicateStart(id));
      }
      var index := |message.content|;
      blocks := blocks[id := Block(kind, index, false)];
      r := Ok(index);
    }

    method FindBlock(id: nat, expected: BlockKind) returns (r: Result<nat, ErrorText>)
      ensures r == Lookup(blocks, id, expected)
    {
      if id !in blocks {
        return Err(UnknownBlock(id));
      }
      var block := blocks[id];
      if block.ended {
        return Err(EndedBlock(id));
      }
      if block.kind != expected {
        return Err(KindMismatch(id));
      }
      r := Ok(block.index);
    }

    method EndBlock(id: nat)
      modifies this`blocks
      ensures blocks == Ended(old(blocks), id)
    {
      if id in blocks {
        blocks := blocks[id := blocks[id].(ended := true)];
      }
    }

    // A block of any kind begins with `content`.
    method BeginBlock(id: nat, content: AssistantContent, public: AssistantMessageEvent)
      returns (event: Option<AssistantMessageEvent>)
      requires Valid()
      modifies this
      ensures Applied(View(), event) == Begun(old(View()), id, content, public)
    {
      var r := StartBlock(id, KindOf(content));
      match r
      case Err(text) =>
        var failed := Violation(text);
        event := Some(failed);
      case Ok(_) =>
        message := message.(content := message.content + [content]);
        event := Some(public);
    }

    method ExtendText(id: nat, delta: string) returns (event: Option<AssistantMessageEvent>)
      requires Valid()
      modifies this
      ensures Applied(View(), event) == Extended(old(View()), id, TextBlock, delta)
    {
      var r := FindBlock(id, TextBlock);
      match r
      case Err(text) =>
        var failed := Violation(text);
        event := Some(failed);
      case Ok(i) =>
        var t := message.content[i].text;
        message := message.(content := message.content[i := Text(t.(text := t.text + delta))]);
        event := Some(AssistantMessageEvent.TextDelta(i, delta));
    }

    method ExtendThinking(id: nat, delta: string) returns (event: Option<AssistantMessageEvent>)
      requires Valid()
      modifies this
      ensures Applied(View(), event) == Extended(old(View()), id, ThinkingBlock, delta)
    {
      var r := FindBlock(id, ThinkingBlock);
      match r
      case Err(text) =>
        var failed := Violation(text);
        event := Some(failed);
      case Ok(i) =>
        var t := message.content[i].thinking;
        message := message.(content := message.content[i := Thinking(t.(thinking := t.thinking + delta))]);
        event := Some(AssistantMessageEvent.ThinkingDelta(i, delta));
    }

    method ExtendToolCall(id: nat, delta: string) returns (event: Option<AssistantMessageEvent>)
      requires Valid()
      modifies this
      ensures Applied(View(), event) == Extended(old(View()), id, ToolBlock, delta)
    {
      var r := FindBlock(id, ToolBlock);
      match r
      case Err(text) =>
        var failed := Violation(text);
        event := Some(failed);
      case Ok(i) =>
        var call := message.content[i].call;
        call := call.(rawArguments := Some(RawOf(call) + delta));
        call := Refreshed(call);
        message := message.(content := message.content[i := Tool(call)]);
        event := Some(AssistantMessageEvent.ToolCallDelta(i, delta));
    }

    method SignThinking(id: nat, sign: string) returns (event: Option<AssistantMessageEvent>)
      requires Valid()
      modifies this
      ensures Applied(View(), event) == Signed(old(View()), id, sign)
    {
      var r := FindBlock(id, ThinkingBlock);
      match r
      case Err(text) =>
        var failed := Violation(text);
        event := Some(failed);
      case Ok(i) =>
        var t := message.content[i].thinking;
        message := message.(content := message.content[i := Thinking(t.(signature := Some(sign)))]);
        event := None;
    }

    method CloseText(id: nat) returns (event: Option<AssistantMessageEvent>)
      requires Valid()
      modifies this
      ensures Applied(View(), event) == Closed(old(View()), id, TextBlock)
    {
      var r := FindBlock(id, TextBlock);
      match r
      case Err(text) =>
        var failed := Violation(text);
        event := Some(failed);
      case Ok(i) =>
        EndBlock(id);
        event := Some(AssistantMessageEvent.TextEnd(i, message.content[i].text));
    }

    method CloseThinking(id: nat) returns (event: Option<AssistantMessageEvent>)
      requires Valid()
      modifies this
      ensures Applied(View(), event) == Closed(old(View()), id, ThinkingBlock)
    {
      var r := FindBlock(id, ThinkingBlock);
      match r
      case Err(text) =>
        var failed := Violation(text);
        event := Some(failed);
      case Ok(i) =>
        EndBlock(id);
        event := Some(AssistantMessageEvent.ThinkingEnd(i, message.content[i].thinking));
    }

    method CloseToolCall(id: nat) returns (event: Option<AssistantMessageEvent>)
      requires Valid()
      modifies this
      ensures Applied(View(), event) == Closed(old(View()), id, ToolBlock)
    {
      var r := FindBlock(id, ToolBlock);
      match r
      case Err(text) =>
        var failed := Violation(text);
        event := Some(failed);
      case Ok(i) =>
        var call := message.content[i].call;
        var parsed := PartialJson.Parse(RawOf(call));
        if parsed.Invalid? {
          EndBlock(id);
          var failed := Violation(UnrepairableArguments(call.name));
          return Some(failed);
        }
        call := call.(arguments := parsed.value);
        message := message.(content := message.content[i := Tool(call)]);
        EndBlock(id);
        event := Some(AssistantMessageEvent.ToolCallEnd(i, call));
    }

    method ApplyBlockEvent(e: ProtocolEvent) returns (event: Option<AssistantMessageEvent>)
      requires Valid() && !stopped && IsContentEvent(e)
      modifies this
      ensures Applied(View(), event) == Step(old(View()), e)
    {
      match e
      case TextStart(id, signature) =>
        event := BeginBlock(id, Text(TextContent("", signature)), AssistantMessageEvent.TextStart(|message.content|));
      case TextDelta(id, delta) => event := ExtendText(id, delta);
      case TextEnd(id) => event := CloseText(id);
      case ThinkingStart(id, signature, redacted) =>
        event := BeginBlock(id, Thinking(ThinkingContent("", signature, redacted)),
                            AssistantMessageEvent.ThinkingStart(|message.content|));
      case ThinkingDelta(id, delta) => event := ExtendThinking(id, delta);
      case ThinkingSignature(id, sign) => event := SignThinking(id, sign);
      case ThinkingEnd(id) => event := CloseThinking(id);
      case ToolCallStart(id, callId, name) =>
        event := BeginBlock(id, Tool(ToolCall(callId, name, PartialJson.EMPTY_OBJECT, None)),
                            AssistantMessageEvent.ToolCallStart(|message.content|, callId, name));
      case ToolCallDelta(id, delta) => event := ExtendToolCall(id, delta);
      case ToolCallEnd(id) => event := CloseToolCall(id);
    }

    method Apply(e: ProtocolEvent) returns (event: Option<AssistantMessageEvent>)
      requires Valid()
      modifies this
      ensures Applied(View(), event) == Step(old(View()), e)
    {
      if stopped && IsContentEvent(e) {
        var failed := Violation(ContentAfterStop);
        return Some(failed);
      }
      if IsContentEvent(e) {
        event := ApplyBlockEvent(e);
        return;
      }
      event := None;
      match e
      case UsageReport(usage) => message := message.(usage := usage);
      case ResponseMetadata(responseId, responseModel) =>
        if responseId.Some? {
          message := message.(responseId := responseId);
        }
        if responseModel.Some? {
          message := message.(responseModel := responseModel);
        }
      case Report(d) => message := message.(diagnostics := message.diagnostics + [d]);
      case Retry(attempt, maxAttempts, delay, kind) =>
        event := Some(AssistantMessageEvent.Retry(attempt, maxAttempts, delay, kind));
      case Stop(reason) =>
        stopped := true;
        message := message.(stopReason := reason);
      case StopWithRaw(reason, raw) =>
        stopped := true;
        message := message.(stopReason := reason);
        message := message.(rawStopReason := Some(raw));
      case Failure(kind, text, diagnostics) =>
        var failed := Fail(kind, Said(text), diagnostics);
        event := Some(failed);
    }
  }
}
