// The values a conversation is made of.
module Messages {
  import opened Prelude
  import JsonText
  import PartialJson

  datatype StopReason = Pending | Stop | Length | ToolUse | Error | Aborted | Unknown

  datatype ErrorKind =
    | Auth | QuotaExhausted | InvalidRequest | ContextOverflow | RateLimited | Overloaded
    | ServerError | Transport | StreamInterrupted | Protocol | Api

  predicate Retryable(kind: ErrorKind) {
    kind.RateLimited? || kind.Overloaded? || kind.ServerError? || kind.Transport?
  }

  datatype DiagnosticCode =
    | ProviderError | Overflow | ProtocolViolation | ImageDowngraded
    | ReasoningDowngraded | ToolCallIdRewritten | Other

  // A diagnostic's wording is reduced to how many things it reports.
  datatype Diagnostic = Diagnostic(code: DiagnosticCode, count: nat)

  // Why a response failed: the text an adapter gave, or what the library found.
  datatype ErrorText =
    | Said(text: string)
    | Cancelled
    | ContentAfterStop
    | DuplicateStart(id: nat)
    | UnknownBlock(id: nat)
    | EndedBlock(id: nat)
    | KindMismatch(id: nat)
    | UnrepairableArguments(name: string)
    | PendingStop
    | NoTerminal

  datatype Usage = Usage(input: nat, output: nat, cacheRead: nat, cacheWrite: nat, reasoning: Option<nat>, total: nat)

  const NO_USAGE: Usage := Usage(0, 0, 0, 0, None, 0)

  // ---------------------------------------------------------------- content

  datatype TextContent = TextContent(text: string, signature: Option<string>)

  datatype ThinkingContent = ThinkingContent(thinking: string, signature: Option<string>, redacted: bool)

  datatype ToolCall = ToolCall(id: string, name: string, arguments: JsonText.Value, rawArguments: Option<string>)

  datatype AssistantContent =
    | Text(text: TextContent)
    | Thinking(thinking: ThinkingContent)
    | Tool(call: ToolCall)

  datatype BlockKind = TextBlock | ThinkingBlock | ToolBlock

  function KindOf(c: AssistantContent): BlockKind {
    match c
    case Text(_) => TextBlock
    case Thinking(_) => ThinkingBlock
    case Tool(_) => ToolBlock
  }

  // The streamed text of a block: what its deltas have appended.
  function Body(c: AssistantContent): string {
    match c
    case Text(t) => t.text
    case Thinking(t) => t.thinking
    case Tool(call) => RawOf(call)
  }

  function RawOf(call: ToolCall): string {
    if call.rawArguments.Some? then call.rawArguments.value else ""
  }

  // A best-effort parse of the raw arguments so far; an unrepairable text keeps the
  // arguments as they were.
  function Refreshed(call: ToolCall): ToolCall {
    if call.rawArguments.None? then call
    else
      match PartialJson.Parse(call.rawArguments.value)
      case Invalid => call
      case Complete(v) => call.(arguments := v)
      case Partial(v) => call.(arguments := v)
  }

  function Appended(call: ToolCall, delta: string): ToolCall {
    Refreshed(call.(rawArguments := Some(RawOf(call) + delta)))
  }

  // ---------------------------------------------------------------- messages

  datatype AssistantMessage = AssistantMessage(
    content: seq<AssistantContent>,
    api: string,
    provider: string,
    model: string,
    responseModel: Option<string>,
    responseId: Option<string>,
    diagnostics: seq<Diagnostic>,
    usage: Usage,
    stopReason: StopReason,
    rawStopReason: Option<string>,
    errorMessage: Option<ErrorText>,
    errorKind: Option<ErrorKind>,
    timestamp: int)

  // A fresh, empty message to accumulate deltas into.
  function Streaming(model: string, provider: string, api: string, now: int): AssistantMessage {
    AssistantMessage([], api, provider, model, None, None, [], NO_USAGE, StopReason.Pending, None, None, None, now)
  }

  // ---------------------------------------------------------------- public events

  datatype AssistantMessageEvent =
    | Start(message: AssistantMessage)
    | TextStart(index: nat)
    | TextDelta(index: nat, delta: string)
    | TextEnd(index: nat, text: TextContent)
    | ThinkingStart(index: nat)
    | ThinkingDelta(index: nat, delta: string)
    | ThinkingEnd(index: nat, thinking: ThinkingContent)
    | ToolCallStart(index: nat, id: string, name: string)
    | ToolCallDelta(index: nat, delta: string)
    | ToolCallEnd(index: nat, call: ToolCall)
    | Retry(attempt: nat, maxAttempts: nat, delay: nat, kind: ErrorKind)
    | Done(reason: StopReason, message: AssistantMessage)
    | Failed(reason: StopReason, error: AssistantMessage)
}
