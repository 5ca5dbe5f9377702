// What the wire adapters share.
module Adapters {
  import opened Prelude
  import opened Messages
  import opened Assembler

  // How a failure before or during the stream is worded.
  datatype Explained = Explained(text: string, diagnostics: seq<Diagnostic>)

  // Whether an adapter's loop goes on, leaves for the finish, or has returned.
  datatype Flow = Onward | Leave | Return

  const MALFORMED := "malformed SSE data: not valid JSON"

  predicate Given(text: Option<string>) {
    text.Some? && text.value != ""
  }

  // The terminal event for a reason and, where the wire gave one, its exact value.
  function StopEvent(reason: StopReason, raw: Option<string>): ProtocolEvent {
    if raw.Some? then StopWithRaw(reason, raw.value) else ProtocolEvent.Stop(reason)
  }
}
