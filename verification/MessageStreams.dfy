// The public stream: it rebuilds the message from the public events alone.
module MessageStreams {
  import opened Prelude
  import opened Messages
  import PartialJson

  // What one event makes of the message seen so far.
  function Recorded(m: AssistantMessage, e: AssistantMessageEvent): AssistantMessage {
    match e
    case Start(message) => message
    case Retry(_, _, _, _) => m
    case TextStart(_) => m.(content := m.content + [Text(TextContent("", None))])
    case TextDelta(i, delta) =>
      if i < |m.content| && m.content[i].Text? then
        m.(content := m.content[i := Text(m.content[i].text.(text := m.content[i].text.text + delta))])
      else m
    case TextEnd(i, t) => if i < |m.content| then m.(content := m.content[i := Text(t)]) else m
    case ThinkingStart(_) => m.(content := m.content + [Thinking(ThinkingContent("", None, false))])
    case ThinkingDelta(i, delta) =>
      if i < |m.content| && m.content[i].Thinking? then
        var t := m.content[i].thinking;
        m.(content := m.content[i := Thinking(t.(thinking := t.thinking + delta))])
      else m
    case ThinkingEnd(i, t) => if i < |m.content| then m.(content := m.content[i := Thinking(t)]) else m
    case ToolCallStart(_, id, name) =>
      m.(content := m.content + [Tool(ToolCall(id, name, PartialJson.EMPTY_OBJECT, None))])
    case ToolCallDelta(i, delta) =>
      if i < |m.content| && m.content[i].Tool? then
        m.(content := m.content[i := Tool(Appended(m.content[i].call, delta))])
      else m
    case ToolCallEnd(i, call) => if i < |m.content| then m.(content := m.content[i := Tool(call)]) else m
    case Done(_, message) => message
    case Failed(_, error) => error
  }

  predicate IsTerminal(e: AssistantMessageEvent) {
    e.Done? || e.Failed?
  }

  function TerminalMessage(e: AssistantMessageEvent): AssistantMessage
    requires IsTerminal(e)
  {
    if e.Done? then e.message else e.error
  }

  // The message after every event of a list.
  function Replayed(m: AssistantMessage, events: seq<AssistantMessageEvent>): AssistantMessage {
    if events == [] then m
    else Recorded(Replayed(m, events[..|events| - 1]), events[|events| - 1])
  }

  // The message of the last terminal event, if there was one.
  function LastTerminal(before: Option<AssistantMessage>,
                        events: seq<AssistantMessageEvent>): Option<AssistantMessage> {
    if events == [] then before
    else if IsTerminal(events[|events| - 1]) then Some(TerminalMessage(events[|events| - 1]))
    else LastTerminal(before, events[..|events| - 1])
  }

  const PLACEHOLDER: AssistantMessage := Streaming("", "", "", 0)

  class MessageStream {
    // The events not yet observed.
    var inner: seq<AssistantMessageEvent>
    var partial: AssistantMessage
    var terminal: Option<AssistantMessage>

    constructor (events: seq<AssistantMessageEvent>)
      ensures inner == events && partial == PLACEHOLDER && terminal == None
    {
      inner, partial, terminal := events, PLACEHOLDER, None;
    }

    method Record(e: AssistantMessageEvent)
      modifies this`partial, this`terminal
      ensures partial == Recorded(old(partial), e)
      ensures terminal == if IsTerminal(e) then Some(TerminalMessage(e)) else old(terminal)
    {
      match e
      case Start(message) => partial := message;
      case Retry(_, _, _, _) =>
      case TextStart(_) => partial := partial.(content := partial.content + [Text(TextContent("", None))]);
      case TextDelta(i, delta) =>
        if i < |partial.content| && partial.content[i].Text? {
          var t := partial.content[i].text;
          partial := partial.(content := partial.content[i := Text(t.(text := t.text + delta))]);
        }
      case TextEnd(i, t) => Overwrite(i, Text(t));
      case ThinkingStart(_) =>
        partial := partial.(content := partial.content + [Thinking(ThinkingContent("", None, false))]);
      case ThinkingDelta(i, delta) =>
        if i < |partial.content| && partial.content[i].Thinking? {
          var t := partial.content[i].thinking;
          partial := partial.(content := partial.content[i := Thinking(t.(thinking := t.thinking + delta))]);
        }
      case ThinkingEnd(i, t) => Overwrite(i, Thinking(t));
      case ToolCallStart(_, id, name) =>
        partial := partial.(content := partial.content + [Tool(ToolCall(id, name, PartialJson.EMPTY_OBJECT, None))]);
      case ToolCallDelta(i, delta) =>
        if i < |partial.content| && partial.content[i].Tool? {
          var call := partial.content[i].call;
          call := call.(rawArguments := Some(RawOf(call) + delta));
          call := Refreshed(call);
          partial := partial.(content := partial.content[i := Tool(call)]);
        }
      case ToolCallEnd(i, call) => Overwrite(i, Tool(call));
      case Done(_, message) =>
        partial := message;
        terminal := Some(message);
      case Failed(_, error) =>
        partial := error;
        terminal := Some(error);
    }

    method Overwrite(i: nat, content: AssistantContent)
      modifies this`partial
      ensures partial == if i < |old(partial).content| then old(partial).(content := old(partial).content[i := content])
                         else old(partial)
    {
      if i < |partial.content| {
        partial := partial.(content := partial.content[i := content]);
      }
    }

    method PollNext() returns (e: Option<AssistantMessageEvent>)
      modifies this
      ensures old(inner) == [] ==> e == None && inner == [] && partial == old(partial) && terminal == old(terminal)
      ensures old(inner) != [] ==>
              && e == Some(old(inner)[0]) && inner == old(inner)[1..]
              && partial == Recorded(old(partial), old(inner)[0])
              && terminal == if IsTerminal(old(inner)[0]) then Some(TerminalMessage(old(inner)[0])) else old(terminal)
    {
      if inner == [] {
        return None;
      }
      e := Some(inner[0]);
      inner := inner[1..];
      Record(e.value);
    }

    // Drives the remaining events, up to the terminal one. `None` is a stream that ends
    // without a terminal event, on which `finish` panics.
    method Finish() returns (message: Option<AssistantMessage>)
      modifies this
      ensures exists n ::
                && 0 <= n <= |old(inner)| && inner == old(inner)[n..]
                && partial == Replayed(old(partial), old(inner)[..n])
                && terminal == LastTerminal(old(terminal), old(inner)[..n])
                && (terminal == None ==> n == |old(inner)|)
                && (forall k :: 0 <= k < n ==> LastTerminal(old(terminal), old(inner)[..k]) == None)
      ensures message == terminal
    {
      ghost var all := inner;
      ghost var n := 0;
      while terminal == None
        invariant 0 <= n <= |all| && inner == all[n..]
        invariant partial == Replayed(old(partial), all[..n])
        invariant terminal == LastTerminal(old(terminal), all[..n])
        invariant forall k :: 0 <= k < n ==> LastTerminal(old(terminal), all[..k]) == None
        decreases |inner| + (if terminal == None then 1 else 0)
      {
        var e := PollNext();
        if e == None {
          break;
        }
        assert all[..n + 1][..n] == all[..n];
        n := n + 1;
      }
      message := terminal;
    }
  }
}
