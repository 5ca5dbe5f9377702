// What repair guarantees, and that normalizing twice is normalizing once.
module NormalizeTheorems {
  import opened Prelude
  import opened Messages
  import opened ToolCallIds
  import opened Normalize

  // ---------------------------------------------------------------- answers

  predicate HasResult(messages: seq<Message>, id: string) {
    exists k :: 0 <= k < |messages| && messages[k].ToolResult? && messages[k].callId == id
  }

  predicate HasCall(m: Message, id: string) {
    exists k :: 0 <= k < |CallsOf(m)| && CallsOf(m)[k].id == id
  }

  // Every call of every assistant turn in `history` has a result in `whole`.
  ghost predicate AllAnswered(history: seq<Message>, whole: seq<Message>) {
    forall m, id :: m in history && HasCall(m, id) ==> HasResult(whole, id)
  }

  // All but the trailing message, whose calls may still be running.
  function History(messages: seq<Message>): seq<Message> {
    if messages == [] then [] else messages[..|messages| - 1]
  }

  lemma {:induction false} HasResultSnoc(messages: seq<Message>, m: Message, id: string)
    ensures HasResult(messages + [m], id) <==> HasResult(messages, id) || (m.ToolResult? && m.callId == id)
  {
    HasResultAppend(messages, [m], id);
    assert [m][0] == m;
  }

  lemma {:induction false} HasResultAppend(xs: seq<Message>, ys: seq<Message>, id: string)
    ensures HasResult(xs + ys, id) <==> HasResult(xs, id) || HasResult(ys, id)
  {
    if HasResult(xs, id) {
      var k :| 0 <= k < |xs| && xs[k].ToolResult? && xs[k].callId == id;
      assert (xs + ys)[k] == xs[k];
    }
    if HasResult(ys, id) {
      var k :| 0 <= k < |ys| && ys[k].ToolResult? && ys[k].callId == id;
      assert (xs + ys)[|xs| + k] == ys[k];
    }
    if HasResult(xs + ys, id) {
      var k :| 0 <= k < |xs + ys| && (xs + ys)[k].ToolResult? && (xs + ys)[k].callId == id;
      if k < |xs| {
        assert xs[k] == (xs + ys)[k];
      } else {
        assert ys[k - |xs|] == (xs + ys)[k];
      }
    }
  }

  lemma {:induction false} AnsweredIs(messages: seq<Message>, id: string)
    ensures id in Answered(messages) <==> HasResult(messages, id)
    decreases |messages|
  {
    if messages != [] {
      var before, m := messages[..|messages| - 1], messages[|messages| - 1];
      AnsweredIs(before, id);
      assert messages == before + [m];
      HasResultSnoc(before, m, id);
    }
  }

  lemma {:induction false} DroppedIs(messages: seq<Message>, id: string)
    ensures id in DroppedCalls(messages) <==> exists m :: m in messages && IsFailedTurn(m) && HasCall(m, id)
    decreases |messages|
  {
    if messages != [] {
      var before, last := messages[..|messages| - 1], messages[|messages| - 1];
      DroppedIs(before, id);
      assert messages == before + [last];
      assert id in Ids(CallsOf(last)) <==> HasCall(last, id);
    }
  }

  // ---------------------------------------------------------------- the filter

  lemma {:induction false} FilteredIs(messages: seq<Message>, dropped: set<string>, m: Message)
    ensures m in Filtered(messages, dropped) <==> m in messages && Survives(m, dropped)
    decreases |messages|
  {
    if messages != [] {
      FilteredIs(messages[..|messages| - 1], dropped, m);
      assert messages == messages[..|messages| - 1] + [messages[|messages| - 1]];
    }
  }

  lemma {:induction false} FilteredResults(messages: seq<Message>, dropped: set<string>, id: string)
    ensures HasResult(Filtered(messages, dropped), id) <==> HasResult(messages, id) && id !in dropped
    decreases |messages|
  {
    if messages != [] {
      var before, m := messages[..|messages| - 1], messages[|messages| - 1];
      FilteredResults(before, dropped, id);
      assert messages == before + [m];
      HasResultSnoc(before, m, id);
      HasResultSnoc(Filtered(before, dropped), m, id);
    }
  }

  // ---------------------------------------------------------------- mending

  lemma {:induction false} SyntheticIs(calls: seq<ToolCall>, answered: set<string>, timestamp: int)
    ensures forall m :: m in Synthetic(calls, answered, timestamp) ==> m.ToolResult? && m.isError
    ensures forall id :: HasResult(Synthetic(calls, answered, timestamp), id) <==>
                         id !in answered && exists k :: 0 <= k < |calls| && calls[k].id == id
    decreases |calls|
  {
    if calls != [] {
      var before, c := calls[..|calls| - 1], calls[|calls| - 1];
      SyntheticIs(before, answered, timestamp);
      forall id
        ensures HasResult(Synthetic(calls, answered, timestamp), id) <==>
                id !in answered && exists k :: 0 <= k < |calls| && calls[k].id == id
      {
        HasResultSnoc(Synthetic(before, answered, timestamp), SyntheticResult(c, timestamp), id);
        CallSnoc(before, c, id);
        assert calls == before + [c];
      }
    }
  }

  lemma {:induction false} CallSnoc(calls: seq<ToolCall>, c: ToolCall, id: string)
    ensures (exists k :: 0 <= k < |calls + [c]| && (calls + [c])[k].id == id) <==>
            (exists k :: 0 <= k < |calls| && calls[k].id == id) || c.id == id
  {
    if exists k :: 0 <= k < |calls| && calls[k].id == id {
      var k :| 0 <= k < |calls| && calls[k].id == id;
      assert (calls + [c])[k].id == id;
    }
    assert (calls + [c])[|calls|] == c;
  }

  // Mending keeps every message and adds only results.
  lemma {:induction false} MendAllIs(messages: seq<Message>, answered: set<string>, m: Message)
    ensures !m.ToolResult? ==> (m in MendAll(messages, answered) <==> m in messages)
    ensures m in messages ==> m in MendAll(messages, answered)
    decreases |messages|
  {
    if messages != [] {
      var before, last := messages[..|messages| - 1], messages[|messages| - 1];
      MendAllIs(before, answered, m);
      assert messages == before + [last];
      if last.Assistant? {
        SyntheticIs(Calls(last.turn.content), answered, last.turn.timestamp);
      }
    }
  }

  // After mending, a call is answered unless its only answers have gone.
  lemma {:induction false} MendAllResults(messages: seq<Message>, answered: set<string>, id: string)
    ensures HasResult(MendAll(messages, answered), id) <==>
            HasResult(messages, id) || (id !in answered && exists m :: m in messages && HasCall(m, id))
    decreases |messages|
  {
    if messages != [] {
      var before, last := messages[..|messages| - 1], messages[|messages| - 1];
      MendAllResults(before, answered, id);
      MendedResults(last, answered, id);
      assert messages == before + [last];
      HasResultSnoc(before, last, id);
      HasResultAppend(MendAll(before, answered), Mended(last, answered), id);
    }
  }

  lemma {:induction false} MendedResults(m: Message, answered: set<string>, id: string)
    ensures HasResult(Mended(m, answered), id) <==>
            (m.ToolResult? && m.callId == id) || (id !in answered && HasCall(m, id))
  {
    var rest := if m.Assistant? then Synthetic(Calls(m.turn.content), answered, m.turn.timestamp) else [];
    HasResultAppend([m], rest, id);
    HasResultSnoc([], m, id);
    assert [] + [m] == [m];
    if m.Assistant? {
      SyntheticIs(CallsOf(m), answered, m.turn.timestamp);
      assert HasCall(m, id) <==> exists k :: 0 <= k < |CallsOf(m)| && CallsOf(m)[k].id == id;
    } else {
      assert CallsOf(m) == [] && !HasCall(m, id);
    }
  }

  // A live call some result answers, but only results that go with a dropped call.
  ghost predicate LosesLiveCall(messages: seq<Message>) {
    var kept := Filtered(messages, DroppedCalls(messages));
    exists m, id :: m in History(kept) && HasCall(m, id) && id in Answered(messages) && id in DroppedCalls(messages)
  }

  lemma {:induction false} LiveCallAnswered(messages: seq<Message>, m: Message, id: string)
    requires m in History(Filtered(messages, DroppedCalls(messages))) && HasCall(m, id)
    ensures HasResult(Repaired(messages), id) <==> !(id in Answered(messages) && id in DroppedCalls(messages))
  {
    var answered, dropped := Answered(messages), DroppedCalls(messages);
    var kept := Filtered(messages, dropped);
    var history, last := History(kept), kept[|kept| - 1];
    assert kept == history + [last];
    MendAllResults(history, answered, id);
    HasResultSnoc(history, last, id);
    HasResultSnoc(MendAll(history, answered), last, id);
    FilteredResults(messages, dropped, id);
    AnsweredIs(messages, id);
  }

  lemma {:induction false} RepairedHistory(messages: seq<Message>, m: Message)
    requires m.Assistant?
    ensures m in History(Repaired(messages)) <==> m in History(Filtered(messages, DroppedCalls(messages)))
  {
    var kept := Filtered(messages, DroppedCalls(messages));
    if kept != [] {
      MendAllIs(History(kept), Answered(messages), m);
      assert History(Repaired(messages)) == MendAll(History(kept), Answered(messages));
    }
  }

  // After repair every call of a turn that is not the last has a result, if and only if no
  // such call was answered only by results dropped with another turn's call of its id.
  lemma {:induction false} RepairAnswersEveryCall(messages: seq<Message>)
    ensures AllAnswered(History(Repaired(messages)), Repaired(messages)) <==> !LosesLiveCall(messages)
  {
    var kept := Filtered(messages, DroppedCalls(messages));
    forall m, id | HasCall(m, id)
      ensures m in History(Repaired(messages)) <==> m in History(kept)
      ensures m in History(kept) ==>
              (HasResult(Repaired(messages), id) <==> !(id in Answered(messages) && id in DroppedCalls(messages)))
    {
      RepairedHistory(messages, m);
      if m in History(kept) {
        LiveCallAnswered(messages, m, id);
      }
    }
  }

  // No call id occurs both in a failed turn and in a surviving one.
  ghost predicate NoSharedIds(messages: seq<Message>) {
    forall m, n, id :: m in messages && n in messages && IsFailedTurn(m) && !IsFailedTurn(n) && HasCall(m, id) ==>
      !HasCall(n, id)
  }

  lemma {:induction false} NoSharedIdsLoseNothing(messages: seq<Message>)
    requires NoSharedIds(messages)
    ensures !LosesLiveCall(messages)
  {
    var kept := Filtered(messages, DroppedCalls(messages));
    forall m, id | m in History(kept) && HasCall(m, id)
      ensures id !in DroppedCalls(messages)
    {
      FilteredIs(messages, DroppedCalls(messages), m);
      DroppedIs(messages, id);
    }
  }

  // Where turn `k` of the survivors stands after repair, and what follows it: the error
  // results of its unanswered calls, in call order, and nothing else.
  lemma {:induction false} RepairKeepsOrder(messages: seq<Message>, k: nat)
    requires k < |Filtered(messages, DroppedCalls(messages))|
    ensures var kept, answered := Filtered(messages, DroppedCalls(messages)), Answered(messages);
            var at := |MendAll(kept[..k], answered)|;
            && at < |Repaired(messages)| && Repaired(messages)[at] == kept[k]
            && (k < |kept| - 1 ==>
                 var next := |MendAll(kept[..k + 1], answered)|;
                 at < next < |Repaired(messages)| && Repaired(messages)[at..next] == Mended(kept[k], answered))
            && (k == |kept| - 1 ==> at == |Repaired(messages)| - 1)
  {
    var kept, answered := Filtered(messages, DroppedCalls(messages)), Answered(messages);
    var history := kept[..|kept| - 1];
    if k < |kept| - 1 {
      assert history[..k] == kept[..k] && history[..k + 1] == kept[..k + 1];
      MendPlaces(history, answered, k);
      assert kept[..k + 1][..k] == kept[..k];
    }
  }

  lemma {:induction false} MendPlaces(history: seq<Message>, answered: set<string>, k: nat)
    requires k < |history|
    ensures var at, next := |MendAll(history[..k], answered)|, |MendAll(history[..k + 1], answered)|;
            at < next <= |MendAll(history, answered)| &&
            MendAll(history, answered)[at..next] == Mended(history[k], answered)
    decreases |history|
  {
    assert history[..k + 1][..k] == history[..k];
    var before, n := history[..|history| - 1], |history| - 1;
    if k < n {
      assert before[..k] == history[..k] && before[..k + 1] == history[..k + 1];
      MendPlaces(before, answered, k);
      var at, next := |MendAll(history[..k], answered)|, |MendAll(history[..k + 1], answered)|;
      assert MendAll(history, answered)[at..next] == MendAll(before, answered)[at..next];
    } else {
      assert history[..k + 1] == history;
    }
  }

  // No failed turn survives, and where no id is shared neither does a result for its calls.
  lemma {:induction false} NothingDroppedRemains(messages: seq<Message>, m: Message)
    requires m in Repaired(messages)
    ensures !IsFailedTurn(m)
    ensures NoSharedIds(messages) && m.ToolResult? ==> m.callId !in DroppedCalls(messages)
  {
    var answered, dropped := Answered(messages), DroppedCalls(messages);
    var kept := Filtered(messages, dropped);
    FilteredIs(messages, dropped, m);
    assert kept == History(kept) + [kept[|kept| - 1]];
    if !m.ToolResult? {
      MendAllIs(History(kept), answered, m);
    } else if NoSharedIds(messages) {
      ResultsAreLive(messages, m);
    }
  }

  lemma {:induction false} ResultsAreLive(messages: seq<Message>, r: Message)
    requires r in Repaired(messages) && r.ToolResult? && NoSharedIds(messages)
    ensures r.callId !in DroppedCalls(messages)
  {
    var answered, dropped := Answered(messages), DroppedCalls(messages);
    var kept, id := Filtered(messages, dropped), r.callId;
    var history, last := History(kept), kept[|kept| - 1];
    assert kept == history + [last];
    assert HasResult(Repaired(messages), id) by {
      var k :| 0 <= k < |Repaired(messages)| && Repaired(messages)[k] == r;
    }
    HasResultSnoc(MendAll(history, answered), last, id);
    MendAllResults(history, answered, id);
    HasResultSnoc(history, last, id);
    FilteredResults(messages, dropped, id);
    if !HasResult(kept, id) {
      var m :| m in history && HasCall(m, id);
      FilteredIs(messages, dropped, m);
      DroppedIs(messages, id);
    }
  }

  // ---------------------------------------------------------------- the other passes

  // What the three later passes make of one message.
  function Finished(model: Model, m: Message): Message {
    var cleaned := RewrittenMessage(DowngradedMessage(model, m));
    if model.acceptsImages then cleaned else OmittedMessage(cleaned)
  }

  function FinishAll(model: Model, messages: seq<Message>): seq<Message> {
    var cleaned := RewriteAll(DowngradeAll(model, messages));
    if model.acceptsImages then cleaned else OmitAll(cleaned)
  }

  lemma {:induction false} FinishAllIs(model: Model, messages: seq<Message>)
    ensures |FinishAll(model, messages)| == |messages|
    ensures forall i :: 0 <= i < |messages| ==> FinishAll(model, messages)[i] == Finished(model, messages[i])
  {
    DowngradeAllIs(model, messages);
    RewriteAllIs(DowngradeAll(model, messages));
    OmitAllIs(RewriteAll(DowngradeAll(model, messages)));
  }

  lemma {:induction false} DowngradeAllIs(model: Model, messages: seq<Message>)
    ensures |DowngradeAll(model, messages)| == |messages|
    ensures forall i :: 0 <= i < |messages| ==>
              DowngradeAll(model, messages)[i] == DowngradedMessage(model, messages[i])
    decreases |messages|
  {
    if messages != [] {
      DowngradeAllIs(model, messages[..|messages| - 1]);
    }
  }

  lemma {:induction false} RewriteAllIs(messages: seq<Message>)
    ensures |RewriteAll(messages)| == |messages|
    ensures forall i :: 0 <= i < |messages| ==> RewriteAll(messages)[i] == RewrittenMessage(messages[i])
    decreases |messages|
  {
    if messages != [] {
      RewriteAllIs(messages[..|messages| - 1]);
    }
  }

  lemma {:induction false} OmitAllIs(messages: seq<Message>)
    ensures |OmitAll(messages)| == |messages|
    ensures forall i :: 0 <= i < |messages| ==> OmitAll(messages)[i] == OmittedMessage(messages[i])
    decreases |messages|
  {
    if messages != [] {
      OmitAllIs(messages[..|messages| - 1]);
    }
  }

  // ---------------------------------------------------------------- clean content

  // No reasoning that is private to another model.
  predicate Public(content: seq<AssistantContent>) {
    forall k :: 0 <= k < |content| ==> !content[k].Thinking? && (content[k].Text? ==> content[k].text.signature == None)
  }

  predicate ValidCalls(content: seq<AssistantContent>) {
    forall k :: 0 <= k < |content| && content[k].Tool? ==> ValidId(content[k].call.id)
  }

  lemma {:induction false} DowngradedIsPublic(content: seq<AssistantContent>)
    ensures Public(Downgraded(content))
    decreases |content|
  {
    if content != [] {
      DowngradedIsPublic(content[..|content| - 1]);
    }
  }

  lemma {:induction false} PublicStays(content: seq<AssistantContent>, c: Counts)
    requires Public(content)
    ensures Downgraded(content) == content && CountBlocks(c, content) == c
    decreases |content|
  {
    if content != [] {
      var before, b := content[..|content| - 1], content[|content| - 1];
      PublicStays(before, c);
      assert content == before + [b];
      assert DowngradedBlock(b) == [b];
    }
  }

  lemma {:induction false} RewrittenContentIs(content: seq<AssistantContent>)
    ensures |RewrittenContent(content)| == |content|
    ensures forall k :: 0 <= k < |content| ==> RewrittenContent(content)[k] == RewrittenBlock(content[k])
    decreases |content|
  {
    if content != [] {
      RewrittenContentIs(content[..|content| - 1]);
    }
  }

  lemma {:induction false} RewrittenContentIsValid(content: seq<AssistantContent>)
    ensures ValidCalls(RewrittenContent(content))
    ensures Public(content) ==> Public(RewrittenContent(content))
  {
    RewrittenContentIs(content);
    forall k | 0 <= k < |content| && content[k].Tool?
      ensures ValidId(Rewritten(content[k].call.id))
    {
      RewrittenIsValid(content[k].call.id);
    }
  }

  lemma {:induction false} ValidCallsStay(content: seq<AssistantContent>)
    requires ValidCalls(content)
    ensures RewrittenContent(content) == content && InvalidCalls(content) == 0
    decreases |content|
  {
    if content != [] {
      var before, b := content[..|content| - 1], content[|content| - 1];
      ValidCallsStay(before);
      assert content == before + [b];
      if b.Tool? {
        RewrittenIsValid(b.call.id);
      }
    }
  }

  lemma {:induction false} NoImagesLeft(content: seq<UserContent>, placeholder: string)
    ensures Images(WithoutImages(content, placeholder)) == 0
  {
    if Images(content) > 0 {
      KeptHasNoImages(content, placeholder);
    }
  }

  lemma {:induction false} KeptHasNoImages(content: seq<UserContent>, placeholder: string)
    ensures Images(OmitBlocks(content, placeholder).kept) == 0
    decreases |content|
  {
    if content != [] {
      KeptHasNoImages(content[..|content| - 1], placeholder);
      var before := OmitBlocks(content[..|content| - 1], placeholder).kept;
      var text := UserText(TextContent(placeholder, None));
      assert (before + [text])[..|before|] == before;
      assert (before + [content[|content| - 1]])[..|before|] == before;
    }
  }

  // What the passes leave: nothing any of them would change.
  predicate Clean(model: Model, m: Message) {
    match m
    case User(blocks, _) => !model.acceptsImages ==> Images(blocks) == 0
    case Assistant(turn) => ValidCalls(turn.content) && (SameProvenance(model, turn) || Public(turn.content))
    case ToolResult(_, _, output, _, _) => ValidId(m.callId) && (!model.acceptsImages ==> Images(output) == 0)
  }

  lemma {:induction false} FinishedIsClean(model: Model, m: Message)
    ensures Clean(model, Finished(model, m))
  {
    match m
    case User(blocks, _) => NoImagesLeft(blocks, USER_IMAGE_OMITTED);
    case Assistant(turn) =>
      DowngradedIsPublic(turn.content);
      RewrittenContentIsValid(turn.content);
      RewrittenContentIsValid(Downgraded(turn.content));
    case ToolResult(id, _, output, _, _) =>
      NoImagesLeft(output, TOOL_IMAGE_OMITTED);
      RewrittenIsValid(id);
  }

  lemma {:induction false} CleanStays(model: Model, m: Message, c: Counts)
    requires Clean(model, m)
    ensures DowngradedMessage(model, m) == m && CountMessage(model, c, m) == c
    ensures RewrittenMessage(m) == m && InvalidIn(m) == 0
    ensures !model.acceptsImages ==> OmittedMessage(m) == m
  {
    match m
    case User(_, _) =>
    case Assistant(turn) =>
      ValidCallsStay(turn.content);
      if !SameProvenance(model, turn) {
        PublicStays(turn.content, c);
      }
    case ToolResult(id, _, _, _, _) => RewrittenIsValid(id);
  }

  ghost predicate AllClean(model: Model, messages: seq<Message>) {
    forall i :: 0 <= i < |messages| ==> Clean(model, messages[i])
  }

  lemma {:induction false} AllCleanStays(model: Model, messages: seq<Message>)
    requires AllClean(model, messages)
    ensures DowngradeAll(model, messages) == messages && CountAll(model, messages) == ZERO
    ensures RewriteAll(messages) == messages && InvalidAll(messages) == 0
    ensures !model.acceptsImages ==>
            OmitAll(messages) == messages && UserImages(messages) == 0 && ToolImages(messages) == 0
    ensures !model.acceptsImages ==> NewestUserImages(messages) == 0
    decreases |messages|
  {
    if messages != [] {
      var before, m := messages[..|messages| - 1], messages[|messages| - 1];
      AllCleanStays(model, before);
      CleanStays(model, m, ZERO);
      assert messages == before + [m];
    }
  }

  // ---------------------------------------------------------------- repairing the result

  lemma {:induction false} NothingToFilter(messages: seq<Message>)
    requires forall m :: m in messages ==> !IsFailedTurn(m)
    ensures DroppedCalls(messages) == {} && Filtered(messages, {}) == messages
    decreases |messages|
  {
    if messages != [] {
      var before, m := messages[..|messages| - 1], messages[|messages| - 1];
      NothingToFilter(before);
      assert messages == before + [m];
    }
  }

  lemma {:induction false} NothingToMend(messages: seq<Message>, answered: set<string>)
    requires forall m, id :: m in messages && HasCall(m, id) ==> id in answered
    ensures MendAll(messages, answered) == messages
    decreases |messages|
  {
    if messages != [] {
      var before, m := messages[..|messages| - 1], messages[|messages| - 1];
      NothingToMend(before, answered);
      assert messages == before + [m];
      if m.Assistant? {
        assert forall k :: 0 <= k < |CallsOf(m)| ==> HasCall(m, CallsOf(m)[k].id);
        NoSynthetic(CallsOf(m), answered, m.turn.timestamp);
        assert [m] + [] == [m];
      }
    }
  }

  lemma {:induction false} NoSynthetic(calls: seq<ToolCall>, answered: set<string>, timestamp: int)
    requires forall k :: 0 <= k < |calls| ==> calls[k].id in answered
    ensures Synthetic(calls, answered, timestamp) == []
    decreases |calls|
  {
    if calls != [] {
      NoSynthetic(calls[..|calls| - 1], answered, timestamp);
    }
  }

  // Repair leaves a history alone exactly when every call in it is answered.
  lemma {:induction false} RepairLeavesAlone(messages: seq<Message>)
    requires forall m :: m in messages ==> !IsFailedTurn(m)
    ensures Repaired(messages) == messages <==> AllAnswered(History(messages), messages)
  {
    NothingToFilter(messages);
    if messages != [] && AllAnswered(History(messages), messages) {
      forall m, id | m in History(messages) && HasCall(m, id)
        ensures id in Answered(messages)
      {
        AnsweredIs(messages, id);
      }
      NothingToMend(History(messages), Answered(messages));
    }
    if Repaired(messages) == messages {
      RepairAnswersEveryCall(messages);
    }
  }

  // ---------------------------------------------------------------- calls through the passes

  lemma {:induction false} CallsOfDowngraded(content: seq<AssistantContent>)
    ensures Calls(Downgraded(content)) == Calls(content)
    decreases |content|
  {
    if content != [] {
      var before, b := content[..|content| - 1], content[|content| - 1];
      CallsOfDowngraded(before);
      var d := Downgraded(before);
      if DowngradedBlock(b) == [] {
        assert d + [] == d;
      } else {
        assert (d + DowngradedBlock(b))[..|d|] == d;
      }
    }
  }

  lemma {:induction false} CallsOfRewritten(content: seq<AssistantContent>)
    ensures |Calls(RewrittenContent(content))| == |Calls(content)|
    ensures forall k :: 0 <= k < |Calls(content)| ==>
              Calls(RewrittenContent(content))[k].id == Rewritten(Calls(content)[k].id)
    decreases |content|
  {
    if content != [] {
      CallsOfRewritten(content[..|content| - 1]);
      RewrittenContentIs(content);
      RewrittenContentIs(content[..|content| - 1]);
      assert RewrittenContent(content)[..|content| - 1] == RewrittenContent(content[..|content| - 1]);
    }
  }

  // The calls of a finished message are those of the message, ids rewritten.
  lemma {:induction false} FinishedCalls(model: Model, m: Message, id: string)
    requires HasCall(Finished(model, m), id)
    ensures exists original :: HasCall(m, original) && Rewritten(original) == id
  {
    CallsOfDowngraded(m.turn.content);
    CallsOfRewritten(m.turn.content);
    CallsOfRewritten(Downgraded(m.turn.content));
    var k :| 0 <= k < |CallsOf(Finished(model, m))| && CallsOf(Finished(model, m))[k].id == id;
    assert HasCall(m, CallsOf(m)[k].id);
  }

  lemma {:induction false} FinishedResults(model: Model, messages: seq<Message>, id: string)
    requires HasResult(messages, id)
    ensures HasResult(FinishAll(model, messages), Rewritten(id))
  {
    FinishAllIs(model, messages);
    var k :| 0 <= k < |messages| && messages[k].ToolResult? && messages[k].callId == id;
    assert FinishAll(model, messages)[k] == Finished(model, messages[k]);
  }

  lemma {:induction false} FinishedAnswered(model: Model, messages: seq<Message>)
    requires AllAnswered(History(messages), messages)
    ensures AllAnswered(History(FinishAll(model, messages)), FinishAll(model, messages))
  {
    FinishAllIs(model, messages);
    forall m, id | m in History(FinishAll(model, messages)) && HasCall(m, id)
      ensures HasResult(FinishAll(model, messages), id)
    {
      var i :| 0 <= i < |messages| - 1 && FinishAll(model, messages)[i] == m;
      assert m == Finished(model, messages[i]);
      FinishedCalls(model, messages[i], id);
      var original :| HasCall(messages[i], original) && Rewritten(original) == id;
      assert messages[i] in History(messages) by {
        assert History(messages)[i] == messages[i];
      }
      FinishedResults(model, messages, original);
    }
  }

  lemma {:induction false} FinishedSurvives(model: Model, messages: seq<Message>)
    requires forall m :: m in messages ==> !IsFailedTurn(m)
    ensures forall m :: m in FinishAll(model, messages) ==> !IsFailedTurn(m)
    ensures AllClean(model, FinishAll(model, messages))
  {
    FinishAllIs(model, messages);
    forall i | 0 <= i < |messages|
      ensures Clean(model, FinishAll(model, messages)[i]) && !IsFailedTurn(FinishAll(model, messages)[i])
    {
      FinishedIsClean(model, messages[i]);
      assert messages[i] in messages;
    }
  }

  // ---------------------------------------------------------------- the theorems

  // After normalization, where no live call was lost: every call of a turn that is not the
  // last has a result under the same rewritten id, and every id is valid.
  lemma {:induction false} NormalizedIsClean(model: Model, messages: seq<Message>)
    requires NormalizedFor(model, messages).Some?
    ensures var out := NormalizedFor(model, messages).value.messages;
            && (!LosesLiveCall(messages) ==> AllAnswered(History(out), out))
            && AllClean(model, out) && (forall m :: m in out ==> !IsFailedTurn(m))
  {
    var repaired := Repaired(messages);
    forall m | m in repaired
      ensures !IsFailedTurn(m)
    {
      NothingDroppedRemains(messages, m);
    }
    FinishedSurvives(model, repaired);
    RepairAnswersEveryCall(messages);
    if !LosesLiveCall(messages) {
      FinishedAnswered(model, repaired);
    }
    assert NormalizedFor(model, messages).value.messages == FinishAll(model, repaired);
  }

  // Normalizing a normalized context for the same model succeeds, and changes nothing and
  // reports nothing exactly when every call in its history is answered.
  lemma {:induction false} NormalizingAgain(model: Model, messages: seq<Message>)
    requires NormalizedFor(model, messages).Some?
    ensures var out := NormalizedFor(model, messages).value.messages;
            && NormalizedFor(model, out).Some?
            && (NormalizedFor(model, out) == Some(Normalized(out, [])) <==> AllAnswered(History(out), out))
  {
    NormalizedIsClean(model, messages);
    var out := NormalizedFor(model, messages).value.messages;
    RepairLeavesAlone(out);
    NormalizingClean(model, out);
  }

  lemma {:induction false} NormalizingClean(model: Model, messages: seq<Message>)
    requires AllClean(model, messages) && forall m :: m in messages ==> !IsFailedTurn(m)
    ensures NormalizedFor(model, messages).Some?
    ensures NormalizedFor(model, messages) == Some(Normalized(messages, [])) <==> Repaired(messages) == messages
  {
    AllCleanStays(model, messages);
    if Repaired(messages) == messages {
      assert CleanReports(model, messages) == [];
      assert NormalizedFor(model, messages) == Some(Normalized(messages, []));
    }
    RepairIsNotUndone(model, messages);
    assert NormalizedFor(model, messages).value.messages == FinishAll(model, Repaired(messages));
  }

  // A repair that adds results is not undone by the later passes.
  lemma {:induction false} RepairIsNotUndone(model: Model, messages: seq<Message>)
    requires forall m :: m in messages ==> !IsFailedTurn(m)
    ensures Repaired(messages) != messages ==> |FinishAll(model, Repaired(messages))| > |messages|
  {
    NothingToFilter(messages);
    FinishAllIs(model, Repaired(messages));
    if messages != [] {
      MendGrows(History(messages), Answered(messages));
      assert messages == History(messages) + [messages[|messages| - 1]];
    }
  }

  lemma {:induction false} MendGrows(messages: seq<Message>, answered: set<string>)
    ensures |MendAll(messages, answered)| >= |messages|
    ensures |MendAll(messages, answered)| == |messages| ==> MendAll(messages, answered) == messages
    decreases |messages|
  {
    if messages != [] {
      MendGrows(messages[..|messages| - 1], answered);
      assert messages == messages[..|messages| - 1] + [messages[|messages| - 1]];
    }
  }

  // Normalization is idempotent on every context in which no call id occurs both in a
  // failed turn and in a surviving one.
  lemma {:induction false} NormalizeIsIdempotent(model: Model, messages: seq<Message>)
    requires NormalizedFor(model, messages).Some? && NoSharedIds(messages)
    ensures var out := NormalizedFor(model, messages).value.messages;
            NormalizedFor(model, out) == Some(Normalized(out, []))
  {
    NoSharedIdsLoseNothing(messages);
    NormalizedIsClean(model, messages);
    NormalizingAgain(model, messages);
  }

  // ---------------------------------------------------------------- exactly when

  predicate Mentions(messages: seq<Message>, id: string) {
    HasResult(messages, id) || exists m :: m in messages && HasCall(m, id)
  }

  // No two ids of the context are rewritten to the same one.
  ghost predicate RewritesApart(messages: seq<Message>) {
    forall a, b :: Mentions(messages, a) && Mentions(messages, b) && Rewritten(a) == Rewritten(b) ==> a == b
  }

  lemma {:induction false} CallFinished(model: Model, m: Message, id: string)
    requires HasCall(m, id)
    ensures HasCall(Finished(model, m), Rewritten(id))
  {
    CallsOfDowngraded(m.turn.content);
    CallsOfRewritten(m.turn.content);
    CallsOfRewritten(Downgraded(m.turn.content));
    var k :| 0 <= k < |CallsOf(m)| && CallsOf(m)[k].id == id;
    assert CallsOf(Finished(model, m))[k].id == Rewritten(id);
  }

  lemma {:induction false} RepairedMentions(messages: seq<Message>, id: string)
    requires HasResult(Repaired(messages), id)
    ensures Mentions(messages, id)
  {
    var answered, dropped := Answered(messages), DroppedCalls(messages);
    var kept := Filtered(messages, dropped);
    var history, last := History(kept), kept[|kept| - 1];
    assert kept == history + [last];
    HasResultSnoc(MendAll(history, answered), last, id);
    MendAllResults(history, answered, id);
    HasResultSnoc(history, last, id);
    FilteredResults(messages, dropped, id);
    if !HasResult(kept, id) {
      var m :| m in history && HasCall(m, id);
      FilteredIs(messages, dropped, m);
    }
  }

  lemma {:induction false} FinishedResultCame(model: Model, messages: seq<Message>, id: string)
    requires HasResult(FinishAll(model, messages), id)
    ensures exists original :: HasResult(messages, original) && Rewritten(original) == id
  {
    FinishAllIs(model, messages);
    var k :| 0 <= k < |messages| && FinishAll(model, messages)[k].ToolResult? &&
      FinishAll(model, messages)[k].callId == id;
    assert FinishAll(model, messages)[k] == Finished(model, messages[k]);
    assert HasResult(messages, messages[k].callId);
  }

  lemma {:induction false} LostCallStaysLost(model: Model, messages: seq<Message>)
    requires LosesLiveCall(messages) && RewritesApart(messages)
    ensures var out := FinishAll(model, Repaired(messages)); !AllAnswered(History(out), out)
  {
    var kept, repaired := Filtered(messages, DroppedCalls(messages)), Repaired(messages);
    var m, id :| m in History(kept) && HasCall(m, id) && id in Answered(messages) && id in DroppedCalls(messages);
    LiveCallAnswered(messages, m, id);
    RepairedHistory(messages, m);
    FinishAllIs(model, repaired);
    var out := FinishAll(model, repaired);
    var i :| 0 <= i < |repaired| - 1 && repaired[i] == m;
    assert History(out)[i] == Finished(model, m);
    CallFinished(model, m, id);
    if HasResult(out, Rewritten(id)) {
      FinishedResultCame(model, repaired, Rewritten(id));
      var original :| HasResult(repaired, original) && Rewritten(original) == Rewritten(id);
      RepairedMentions(messages, original);
      AnsweredIs(messages, id);
      assert Mentions(messages, id);
      assert false;
    }
  }

  // Where ids are rewritten apart, normalization is idempotent exactly when repair loses
  // no live call.
  lemma {:induction false} IdempotentExactly(model: Model, messages: seq<Message>)
    requires NormalizedFor(model, messages).Some? && RewritesApart(messages)
    ensures var out := NormalizedFor(model, messages).value.messages;
            NormalizedFor(model, out) == Some(Normalized(out, [])) <==> !LosesLiveCall(messages)
  {
    NormalizedIsClean(model, messages);
    NormalizingAgain(model, messages);
    assert NormalizedFor(model, messages).value.messages == FinishAll(model, Repaired(messages));
    if LosesLiveCall(messages) {
      LostCallStaysLost(model, messages);
    }
  }

  // A turn that failed, its retry under the same call id, the result, and the next question.
  function SharedId(failed: AssistantMessage, live: AssistantMessage, call: ToolCall): seq<Message> {
    [Assistant(failed.(content := [Tool(call)], stopReason := StopReason.Error)),
     Assistant(live.(content := [Tool(call)], stopReason := StopReason.ToolUse)),
     ToolResult(call.id, call.name, [], false, 0), User([], 0)]
  }

  // The retry had its result, and loses it.
  lemma {:induction false} SharedIdLosesTheResult(failed: AssistantMessage, live: AssistantMessage, call: ToolCall)
    ensures var messages := SharedId(failed, live, call);
            && HasResult(messages, call.id) && HasCall(messages[1], call.id)
            && Repaired(messages) == [messages[1], messages[3]] && !HasResult(Repaired(messages), call.id)
            && LosesLiveCall(messages)
  {
    var messages, id := SharedId(failed, live, call), call.id;
    SharedIdCalls(failed, live, call);
    DroppedIs(messages, id);
    assert messages[0] in messages;
    AnsweredIs(messages, id);
    SharedIdKept(failed, live, call, DroppedCalls(messages));
    OnlyAnswerDropped(messages, messages[1], messages[3], call);
  }

  // A live turn loses the answer to its only call.
  lemma {:induction false} OnlyAnswerDropped(messages: seq<Message>, live: Message, next: Message, call: ToolCall)
    requires Filtered(messages, DroppedCalls(messages)) == [live, next]
    requires call.id in DroppedCalls(messages) && call.id in Answered(messages)
    requires live.Assistant? && CallsOf(live) == [call] && HasCall(live, call.id) && next.User?
    ensures Repaired(messages) == [live, next] && !HasResult([live, next], call.id) && LosesLiveCall(messages)
  {
    var kept := Filtered(messages, DroppedCalls(messages));
    assert History(kept) == [live];
    AnsweredTurnStays(live, call, Answered(messages));
    assert live in History(kept);
  }

  lemma {:induction false} SharedIdCalls(failed: AssistantMessage, live: AssistantMessage, call: ToolCall)
    ensures var messages := SharedId(failed, live, call);
            && HasResult(messages, call.id)
            && HasCall(messages[0], call.id) && HasCall(messages[1], call.id) && CallsOf(messages[1]) == [call]
  {
    var messages := SharedId(failed, live, call);
    var content := [Tool(call)];
    assert content[..0] == [] && Calls([]) == [];
    assert Calls(content) == [call];
    assert messages[0].turn.content == content && messages[1].turn.content == content;
    assert CallsOf(messages[0])[0] == call;
    assert CallsOf(messages[1])[0] == call;
    assert messages[2].callId == call.id;
  }

  lemma {:induction false} SharedIdKept(failed: AssistantMessage, live: AssistantMessage, call: ToolCall,
                                        dropped: set<string>)
    requires call.id in dropped
    ensures var messages := SharedId(failed, live, call); Filtered(messages, dropped) == [messages[1], messages[3]]
  {
    var messages := SharedId(failed, live, call);
    var one, two, three := messages[..1], messages[..2], messages[..3];
    assert one[..0] == [] && two[..1] == one && three[..2] == two;
    assert Filtered(one, dropped) == [];
    assert Filtered(two, dropped) == [messages[1]];
    assert Filtered(three, dropped) == [messages[1]];
  }

  lemma {:induction false} AnsweredTurnStays(m: Message, call: ToolCall, answered: set<string>)
    requires m.Assistant? && CallsOf(m) == [call] && call.id in answered
    ensures MendAll([m], answered) == [m]
  {
    NoSynthetic([call], answered, m.turn.timestamp);
    assert [m][..0] == [] && [m] + [] == [m];
  }
}
