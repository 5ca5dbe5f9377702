// The one pass over the history before a request: repair, reasoning downgrade, id
// rewrite and image omission.
module Normalize {
  import opened Prelude
  import opened Messages
  import opened ToolCallIds
  import PartialJson

  datatype UserContent = UserText(text: TextContent) | Image(data: string, mimeType: string)

  datatype Message =
    | User(blocks: seq<UserContent>, sent: int)
    | Assistant(turn: AssistantMessage)
    | ToolResult(callId: string, toolName: string, output: seq<UserContent>, isError: bool, timestamp: int)

  // The target model: what is compared, and whether it accepts images.
  datatype Model = Model(id: string, provider: string, api: string, acceptsImages: bool)

  const USER_IMAGE_OMITTED := "(image omitted: model does not support images)"
  const TOOL_IMAGE_OMITTED := "(tool image omitted: model does not support images)"
  const NO_RESULT_PROVIDED := "No result provided"

  // ---------------------------------------------------------------- tool-history repair

  predicate IsFailedTurn(m: Message) {
    m.Assistant? && (m.turn.stopReason == StopReason.Error || m.turn.stopReason == StopReason.Aborted)
  }

  // The tool calls of a turn, in order.
  function Calls(content: seq<AssistantContent>): seq<ToolCall> {
    if content == [] then []
    else
      var before := Calls(content[..|content| - 1]);
      if content[|content| - 1].Tool? then before + [content[|content| - 1].call] else before
  }

  function CallsOf(m: Message): seq<ToolCall> {
    if m.Assistant? then Calls(m.turn.content) else []
  }

  function Ids(calls: seq<ToolCall>): set<string> {
    set k | 0 <= k < |calls| :: calls[k].id
  }

  // The ids some result answers.
  function Answered(messages: seq<Message>): set<string> {
    if messages == [] then {}
    else
      Answered(messages[..|messages| - 1]) +
      (if messages[|messages| - 1].ToolResult? then {messages[|messages| - 1].callId} else {})
  }

  // The ids of the calls of failed turns.
  function DroppedCalls(messages: seq<Message>): set<string> {
    if messages == [] then {}
    else
      DroppedCalls(messages[..|messages| - 1]) +
      (if IsFailedTurn(messages[|messages| - 1]) then Ids(CallsOf(messages[|messages| - 1])) else {})
  }

  predicate Survives(m: Message, dropped: set<string>) {
    !IsFailedTurn(m) && !(m.ToolResult? && m.callId in dropped)
  }

  function Filtered(messages: seq<Message>, dropped: set<string>): seq<Message> {
    if messages == [] then []
    else
      var before := Filtered(messages[..|messages| - 1], dropped);
      if Survives(messages[|messages| - 1], dropped) then before + [messages[|messages| - 1]] else before
  }

  function SyntheticResult(call: ToolCall, timestamp: int): Message {
    ToolResult(call.id, call.name, [UserText(TextContent(NO_RESULT_PROVIDED, None))], true, timestamp)
  }

  // One error result for each call nothing answers, in call order.
  function Synthetic(calls: seq<ToolCall>, answered: set<string>, timestamp: int): seq<Message> {
    if calls == [] then []
    else
      var before := Synthetic(calls[..|calls| - 1], answered, timestamp);
      if calls[|calls| - 1].id in answered then before else before + [SyntheticResult(calls[|calls| - 1], timestamp)]
  }

  function Mended(m: Message, answered: set<string>): seq<Message> {
    [m] + (if m.Assistant? then Synthetic(Calls(m.turn.content), answered, m.turn.timestamp) else [])
  }

  function MendAll(messages: seq<Message>, answered: set<string>): seq<Message> {
    if messages == [] then []
    else MendAll(messages[..|messages| - 1], answered) + Mended(messages[|messages| - 1], answered)
  }

  // All but the trailing message is mended.
  function MendHistory(messages: seq<Message>, answered: set<string>): seq<Message> {
    if messages == [] then []
    else MendAll(messages[..|messages| - 1], answered) + [messages[|messages| - 1]]
  }

  function Repaired(messages: seq<Message>): seq<Message> {
    MendHistory(Filtered(messages, DroppedCalls(messages)), Answered(messages))
  }

  // ---------------------------------------------------------------- reasoning downgrade

  predicate SameProvenance(model: Model, turn: AssistantMessage) {
    turn.provider == model.provider && turn.api == model.api && turn.responseModel.GetOr(turn.model) == model.id
  }

  datatype Counts = Counts(converted: nat, omitted: nat, stripped: nat)

  const ZERO: Counts := Counts(0, 0, 0)

  predicate Hollow(t: ThinkingContent) {
    t.redacted || PartialJson.TrimsToNothing(t.thinking)
  }

  function DowngradedBlock(b: AssistantContent): seq<AssistantContent> {
    match b
    case Thinking(t) => if Hollow(t) then [] else [Text(TextContent(t.thinking, None))]
    case Text(t) => [Text(t.(signature := None))]
    case Tool(_) => [b]
  }

  function Counted(c: Counts, b: AssistantContent): Counts {
    match b
    case Thinking(t) => if Hollow(t) then c.(omitted := c.omitted + 1) else c.(converted := c.converted + 1)
    case Text(t) => if t.signature.Some? then c.(stripped := c.stripped + 1) else c
    case Tool(_) => c
  }

  function Downgraded(content: seq<AssistantContent>): seq<AssistantContent> {
    if content == [] then []
    else Downgraded(content[..|content| - 1]) + DowngradedBlock(content[|content| - 1])
  }

  function CountBlocks(c: Counts, content: seq<AssistantContent>): Counts
    decreases |content|
  {
    if content == [] then c else Counted(CountBlocks(c, content[..|content| - 1]), content[|content| - 1])
  }

  function DowngradedMessage(model: Model, m: Message): Message {
    if m.Assistant? && !SameProvenance(model, m.turn)
    then Assistant(m.turn.(content := Downgraded(m.turn.content)))
    else m
  }

  function CountMessage(model: Model, c: Counts, m: Message): Counts {
    if m.Assistant? && !SameProvenance(model, m.turn) then CountBlocks(c, m.turn.content) else c
  }

  function DowngradeAll(model: Model, messages: seq<Message>): seq<Message> {
    if messages == [] then []
    else DowngradeAll(model, messages[..|messages| - 1]) + [DowngradedMessage(model, messages[|messages| - 1])]
  }

  function CountAll(model: Model, messages: seq<Message>): Counts {
    if messages == [] then ZERO
    else CountMessage(model, CountAll(model, messages[..|messages| - 1]), messages[|messages| - 1])
  }

  function ReasoningReport(c: Counts): seq<Diagnostic> {
    var total := c.converted + c.omitted + c.stripped;
    if total > 0 then [Diagnostic(ReasoningDowngraded, total)] else []
  }

  // ---------------------------------------------------------------- id rewrite

  function RewrittenBlock(b: AssistantContent): AssistantContent {
    if b.Tool? then Tool(b.call.(id := Rewritten(b.call.id))) else b
  }

  function RewrittenContent(content: seq<AssistantContent>): seq<AssistantContent> {
    if content == [] then [] else RewrittenContent(content[..|content| - 1]) + [RewrittenBlock(content[|content| - 1])]
  }

  function RewrittenMessage(m: Message): Message {
    match m
    case User(_, _) => m
    case Assistant(turn) => Assistant(turn.(content := RewrittenContent(turn.content)))
    case ToolResult(_, _, _, _, _) => m.(callId := Rewritten(m.callId))
  }

  function Invalid(id: string): nat {
    if ValidId(id) then 0 else 1
  }

  function InvalidCalls(content: seq<AssistantContent>): nat {
    if content == [] then 0
    else
      InvalidCalls(content[..|content| - 1]) +
      (if content[|content| - 1].Tool? then Invalid(content[|content| - 1].call.id) else 0)
  }

  function InvalidIn(m: Message): nat {
    match m
    case User(_, _) => 0
    case Assistant(turn) => InvalidCalls(turn.content)
    case ToolResult(_, _, _, _, _) => Invalid(m.callId)
  }

  function RewriteAll(messages: seq<Message>): seq<Message> {
    if messages == [] then [] else RewriteAll(messages[..|messages| - 1]) + [RewrittenMessage(messages[|messages| - 1])]
  }

  function InvalidAll(messages: seq<Message>): nat {
    if messages == [] then 0 else InvalidAll(messages[..|messages| - 1]) + InvalidIn(messages[|messages| - 1])
  }

  // ---------------------------------------------------------------- image omission

  function Images(content: seq<UserContent>): nat {
    if content == [] then 0
    else Images(content[..|content| - 1]) + (if content[|content| - 1].Image? then 1 else 0)
  }

  // A run of images becomes one placeholder, which also merges with one just before it.
  datatype Omitting = Omitting(kept: seq<UserContent>, afterPlaceholder: bool)

  function OmitBlock(o: Omitting, b: UserContent, placeholder: string): Omitting {
    match b
    case Image(_, _) =>
      Omitting(if o.afterPlaceholder then o.kept else o.kept + [UserText(TextContent(placeholder, None))], true)
    case UserText(t) => Omitting(o.kept + [b], t.text == placeholder)
  }

  function OmitBlocks(content: seq<UserContent>, placeholder: string): Omitting {
    if content == [] then Omitting([], false)
    else OmitBlock(OmitBlocks(content[..|content| - 1], placeholder), content[|content| - 1], placeholder)
  }

  function WithoutImages(content: seq<UserContent>, placeholder: string): seq<UserContent> {
    if Images(content) == 0 then content else OmitBlocks(content, placeholder).kept
  }

  function OmittedMessage(m: Message): Message {
    match m
    case User(blocks, _) => m.(blocks := WithoutImages(blocks, USER_IMAGE_OMITTED))
    case ToolResult(_, _, output, _, _) => m.(output := WithoutImages(output, TOOL_IMAGE_OMITTED))
    case Assistant(_) => m
  }

  function OmitAll(messages: seq<Message>): seq<Message> {
    if messages == [] then [] else OmitAll(messages[..|messages| - 1]) + [OmittedMessage(messages[|messages| - 1])]
  }

  function UserImages(messages: seq<Message>): nat {
    if messages == [] then 0
    else
      UserImages(messages[..|messages| - 1]) +
      (if messages[|messages| - 1].User? then Images(messages[|messages| - 1].blocks) else 0)
  }

  function ToolImages(messages: seq<Message>): nat {
    if messages == [] then 0
    else
      ToolImages(messages[..|messages| - 1]) +
      (if messages[|messages| - 1].ToolResult? then Images(messages[|messages| - 1].output) else 0)
  }

  function Report(code: DiagnosticCode, count: nat): seq<Diagnostic> {
    if count > 0 then [Diagnostic(code, count)] else []
  }

  // ---------------------------------------------------------------- the whole pass

  // The images of the newest user message.
  function NewestUserImages(messages: seq<Message>): nat {
    if messages == [] then 0
    else if messages[|messages| - 1].User? then Images(messages[|messages| - 1].blocks)
    else NewestUserImages(messages[..|messages| - 1])
  }

  datatype Normalized = Normalized(messages: seq<Message>, diagnostics: seq<Diagnostic>)

  // Repaired, downgraded and rewritten.
  function Cleaned(model: Model, messages: seq<Message>): seq<Message> {
    RewriteAll(DowngradeAll(model, Repaired(messages)))
  }

  function CleanReports(model: Model, messages: seq<Message>): seq<Diagnostic> {
    var repaired := Repaired(messages);
    ReasoningReport(CountAll(model, repaired)) +
    Report(ToolCallIdRewritten, InvalidAll(DowngradeAll(model, repaired)))
  }

  // `None` is the modality violation.
  function NormalizedFor(model: Model, messages: seq<Message>): Option<Normalized> {
    if !model.acceptsImages && NewestUserImages(messages) > 0 then None
    else
      var cleaned := Cleaned(model, messages);
      if model.acceptsImages then Some(Normalized(cleaned, CleanReports(model, messages)))
      else
        Some(Normalized(OmitAll(cleaned),
                        CleanReports(model, messages) + Report(ImageDowngraded, UserImages(cleaned))
                        + Report(ImageDowngraded, ToolImages(cleaned))))
  }

  // ---------------------------------------------------------------- the passes in place

  // The copy of the caller's context that the passes rewrite.
  class Context {
    var messages: seq<Message>

    constructor (messages: seq<Message>)
      ensures this.messages == messages
    {
      this.messages := messages;
    }

    method RepairToolHistory()
      modifies this
      ensures messages == Repaired(old(messages))
    {
      var answered, dropped: set<string> := {}, {};
      for i := 0 to |messages|
        invariant messages == old(messages)
        invariant answered == Answered(messages[..i]) && dropped == DroppedCalls(messages[..i])
      {
        assert messages[..i + 1][..i] == messages[..i];
        if messages[i].ToolResult? {
          answered := answered + {messages[i].callId};
        }
        if IsFailedTurn(messages[i]) {
          dropped := dropped + Ids(Calls(messages[i].turn.content));
        }
      }
      assert messages[..|messages|] == messages;
      var kept: seq<Message> := [];
      for i := 0 to |messages|
        invariant messages == old(messages) && kept == Filtered(messages[..i], dropped)
      {
        assert messages[..i + 1][..i] == messages[..i];
        if !IsFailedTurn(messages[i]) && !(messages[i].ToolResult? && messages[i].callId in dropped) {
          kept := kept + [messages[i]];
        }
      }
      assert messages[..|messages|] == messages;
      var repaired := Mend(kept, answered);
      messages := repaired;
    }

    static method Mend(kept: seq<Message>, answered: set<string>) returns (repaired: seq<Message>)
      ensures repaired == MendHistory(kept, answered)
    {
      var trailing := if |kept| == 0 then 0 else |kept| - 1;
      repaired := [];
      for index := 0 to |kept|
        invariant index <= trailing ==> repaired == MendAll(kept[..index], answered)
        invariant index == |kept| ==> repaired == MendHistory(kept, answered)
      {
        assert kept[..index + 1][..index] == kept[..index];
        repaired := repaired + [kept[index]];
        if kept[index].Assistant? && index != trailing {
          var synthetic := SynthesizeResults(kept[index].turn, answered);
          repaired := repaired + synthetic;
        }
      }
    }

    static method SynthesizeResults(turn: AssistantMessage, answered: set<string>) returns (results: seq<Message>)
      ensures results == Synthetic(Calls(turn.content), answered, turn.timestamp)
    {
      results := [];
      for i := 0 to |turn.content|
        invariant results == Synthetic(Calls(turn.content[..i]), answered, turn.timestamp)
      {
        assert turn.content[..i + 1][..i] == turn.content[..i];
        ghost var before := Calls(turn.content[..i]);
        if turn.content[i].Tool? {
          assert (before + [turn.content[i].call])[..|before|] == before;
          if turn.content[i].call.id !in answered {
            results := results + [SyntheticResult(turn.content[i].call, turn.timestamp)];
          }
        }
      }
      assert turn.content[..|turn.content|] == turn.content;
    }

    method NormalizeReasoning(model: Model) returns (diagnostics: seq<Diagnostic>)
      modifies this
      ensures messages == DowngradeAll(model, old(messages))
      ensures diagnostics == ReasoningReport(CountAll(model, old(messages)))
    {
      var counts := ZERO;
      var rewritten: seq<Message> := [];
      for i := 0 to |messages|
        invariant messages == old(messages)
        invariant rewritten == DowngradeAll(model, messages[..i]) && counts == CountAll(model, messages[..i])
      {
        assert messages[..i + 1][..i] == messages[..i];
        var m := messages[i];
        if m.Assistant? && !SameProvenance(model, m.turn) {
          var content;
          content, counts := DowngradeTurn(m.turn.content, counts);
          m := Assistant(m.turn.(content := content));
        }
        rewritten := rewritten + [m];
      }
      assert messages[..|messages|] == messages;
      messages := rewritten;
      diagnostics := ReasoningReport(counts);
    }

    static method DowngradeTurn(blocks: seq<AssistantContent>, before: Counts)
      returns (content: seq<AssistantContent>, counts: Counts)
      ensures content == Downgraded(blocks) && counts == CountBlocks(before, blocks)
    {
      content, counts := [], before;
      for i := 0 to |blocks|
        invariant content == Downgraded(blocks[..i]) && counts == CountBlocks(before, blocks[..i])
      {
        assert blocks[..i + 1][..i] == blocks[..i];
        match blocks[i] {
          case Thinking(t) =>
            if t.redacted || PartialJson.TrimsToNothing(t.thinking) {
              counts := counts.(omitted := counts.omitted + 1);
            } else {
              counts := counts.(converted := counts.converted + 1);
              content := content + [Text(TextContent(t.thinking, None))];
            }
          case Text(t) =>
            if t.signature.Some? {
              counts := counts.(stripped := counts.stripped + 1);
            }
            content := content + [Text(t.(signature := None))];
          case Tool(_) => content := content + [blocks[i]];
        }
      }
      assert blocks[..|blocks|] == blocks;
    }

    method NormalizeToolCallIds() returns (diagnostics: seq<Diagnostic>)
      modifies this
      ensures messages == RewriteAll(old(messages))
      ensures diagnostics == Report(ToolCallIdRewritten, InvalidAll(old(messages)))
    {
      var rewritten := 0;
      var out: seq<Message> := [];
      for i := 0 to |messages|
        invariant messages == old(messages)
        invariant out == RewriteAll(messages[..i]) && rewritten == InvalidAll(messages[..i])
      {
        assert messages[..i + 1][..i] == messages[..i];
        var m := messages[i];
        if m.Assistant? {
          var content, n := RewriteTurn(m.turn.content);
          m, rewritten := Assistant(m.turn.(content := content)), rewritten + n;
        } else if m.ToolResult? {
          var id := Rewrite(m.callId);
          if id.Some? {
            m, rewritten := m.(callId := id.value), rewritten + 1;
          }
        }
        out := out + [m];
      }
      assert messages[..|messages|] == messages;
      messages := out;
      diagnostics := Report(ToolCallIdRewritten, rewritten);
    }

    static method RewriteTurn(blocks: seq<AssistantContent>) returns (content: seq<AssistantContent>, rewritten: nat)
      ensures content == RewrittenContent(blocks) && rewritten == InvalidCalls(blocks)
    {
      content, rewritten := [], 0;
      for i := 0 to |blocks|
        invariant content == RewrittenContent(blocks[..i]) && rewritten == InvalidCalls(blocks[..i])
      {
        assert blocks[..i + 1][..i] == blocks[..i];
        var b := blocks[i];
        if b.Tool? {
          var id := Rewrite(b.call.id);
          if id.Some? {
            b, rewritten := Tool(b.call.(id := id.value)), rewritten + 1;
          }
        }
        content := content + [b];
      }
      assert blocks[..|blocks|] == blocks;
    }

    method OmitImages() returns (diagnostics: seq<Diagnostic>)
      modifies this
      ensures messages == OmitAll(old(messages))
      ensures diagnostics == Report(ImageDowngraded, UserImages(old(messages))) +
              Report(ImageDowngraded, ToolImages(old(messages)))
    {
      var userImages, toolImages := 0, 0;
      var out: seq<Message> := [];
      for i := 0 to |messages|
        invariant messages == old(messages) && out == OmitAll(messages[..i])
        invariant userImages == UserImages(messages[..i]) && toolImages == ToolImages(messages[..i])
      {
        assert messages[..i + 1][..i] == messages[..i];
        var m := messages[i];
        if m.User? {
          var content, n := OmitFrom(m.blocks, USER_IMAGE_OMITTED);
          m, userImages := m.(blocks := content), userImages + n;
        } else if m.ToolResult? {
          var content, n := OmitFrom(m.output, TOOL_IMAGE_OMITTED);
          m, toolImages := m.(output := content), toolImages + n;
        }
        out := out + [m];
      }
      assert messages[..|messages|] == messages;
      messages := out;
      diagnostics := Report(ImageDowngraded, userImages) + Report(ImageDowngraded, toolImages);
    }

    static method OmitFrom(blocks: seq<UserContent>, placeholder: string)
      returns (content: seq<UserContent>, omitted: nat)
      ensures content == WithoutImages(blocks, placeholder) && omitted == Images(blocks)
    {
      if Images(blocks) == 0 {
        return blocks, 0;
      }
      omitted := 0;
      content := [];
      var previousWasPlaceholder := false;
      for i := 0 to |blocks|
        invariant Omitting(content, previousWasPlaceholder) == OmitBlocks(blocks[..i], placeholder)
        invariant omitted == Images(blocks[..i])
      {
        assert blocks[..i + 1][..i] == blocks[..i];
        match blocks[i] {
          case Image(_, _) =>
            omitted := omitted + 1;
            if !previousWasPlaceholder {
              content := content + [UserText(TextContent(placeholder, None))];
            }
            previousWasPlaceholder := true;
          case UserText(t) =>
            previousWasPlaceholder := t.text == placeholder;
            content := content + [blocks[i]];
        }
      }
      assert blocks[..|blocks|] == blocks;
    }
  }

  // The caller's messages are never touched: the passes run over a copy.
  method Normalize(model: Model, messages: seq<Message>) returns (r: Option<Normalized>)
    ensures r == NormalizedFor(model, messages)
  {
    if !model.acceptsImages && NewestUserImages(messages) > 0 {
      return None;
    }
    var context := new Context(messages);
    context.RepairToolHistory();
    var reasoning := context.NormalizeReasoning(model);
    var ids := context.NormalizeToolCallIds();
    var diagnostics := reasoning + ids;
    if !model.acceptsImages {
      var images := context.OmitImages();
      assert (reasoning + ids) + images ==
             ((reasoning + ids) + Report(ImageDowngraded, UserImages(Cleaned(model, messages))))
                                            + Report(ImageDowngraded, ToolImages(Cleaned(model, messages)));
      diagnostics := diagnostics + images;
    }
    r := Some(Normalized(context.messages, diagnostics));
  }
}
