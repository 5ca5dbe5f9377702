// What every sequence of protocol events keeps true of the assembler.
module AssemblerTheorems {
  import opened Prelude
  import opened Messages
  import opened Assembler
  import PartialJson
  import JsonText

  ghost predicate Owned(blocks: map<nat, Block>, i: nat) {
    exists id :: id in blocks && blocks[id].index == i
  }

  // Block ids and content indices correspond one to one.
  ghost predicate Bijective(st: State) {
    && Placed(st)
    && (forall x, y :: x in st.blocks && y in st.blocks && st.blocks[x].index == st.blocks[y].index ==> x == y)
    && (forall i :: 0 <= i < |st.message.content| ==> Owned(st.blocks, i))
  }

  // ---------------------------------------------------------------- deltas

  predicate IsDelta(e: AssistantMessageEvent) {
    e.TextDelta? || e.ThinkingDelta? || e.ToolCallDelta?
  }

  // The deltas emitted for one block, oldest first.
  function Fragments(events: seq<AssistantMessageEvent>, i: nat): seq<string> {
    if events == [] then []
    else
      var before, last := Fragments(events[..|events| - 1], i), events[|events| - 1];
      if IsDelta(last) && last.index == i then before + [last.delta] else before
  }

  function RawAfter(fragments: seq<string>): Option<string> {
    if fragments == [] then None else Some(Concat(fragments))
  }

  // The arguments a caller is shown: the last parse that was not refused.
  function Snapshot(fragments: seq<string>): JsonText.Value {
    if fragments == [] then PartialJson.EMPTY_OBJECT
    else
      match PartialJson.Parse(Concat(fragments))
      case Invalid => Snapshot(fragments[..|fragments| - 1])
      case Complete(v) => v
      case Partial(v) => v
  }

  // A block holds exactly what its deltas have appended.
  predicate Holds(c: AssistantContent, fragments: seq<string>) {
    && Body(c) == Concat(fragments)
    && (c.Tool? ==> c.call.rawArguments == RawAfter(fragments) && c.call.arguments == Snapshot(fragments))
  }

  ghost predicate Accumulated(st: State, events: seq<AssistantMessageEvent>) {
    && (forall i :: 0 <= i < |st.message.content| ==> Holds(st.message.content[i], Fragments(events, i)))
    && (forall i {:trigger Fragments(events, i)} :: |st.message.content| <= i ==> Fragments(events, i) == [])
  }

  ghost predicate Sound(st: State, events: seq<AssistantMessageEvent>) {
    Bijective(st) && Accumulated(st, events)
  }

  function Emitted(events: seq<AssistantMessageEvent>,
                   event: Option<AssistantMessageEvent>): seq<AssistantMessageEvent> {
    if event.Some? then events + [event.value] else events
  }

  lemma {:induction false} FragmentsSnoc(events: seq<AssistantMessageEvent>, e: AssistantMessageEvent, i: nat)
    ensures Fragments(events + [e], i) ==
            if IsDelta(e) && e.index == i then Fragments(events, i) + [e.delta] else Fragments(events, i)
  {
    assert (events + [e])[..|events|] == events;
  }

  // An event that is no delta changes no fragments.
  lemma {:induction false} SameFragments(events: seq<AssistantMessageEvent>, event: Option<AssistantMessageEvent>)
    requires event.Some? ==> !IsDelta(event.value)
    ensures forall i {:trigger Fragments(Emitted(events, event), i)} {:trigger Fragments(events, i)} ::
              0 <= i ==> Fragments(Emitted(events, event), i) == Fragments(events, i)
  {
    if event.Some? {
      forall i: nat
        ensures Fragments(Emitted(events, event), i) == Fragments(events, i)
      {
        FragmentsSnoc(events, event.value, i);
      }
    }
  }

  lemma {:induction false} GrownHolds(c: AssistantContent, fragments: seq<string>, delta: string)
    requires Holds(c, fragments)
    ensures Holds(Grown(c, delta), fragments + [delta])
  {
    ConcatSnoc(fragments, delta);
    if c.Tool? {
      assert (fragments + [delta])[..|fragments|] == fragments;
    }
  }

  // ---------------------------------------------------------------- one event

  lemma {:induction false} BegunSound(st: State, events: seq<AssistantMessageEvent>, id: nat, content: AssistantContent,
                                      public: AssistantMessageEvent)
    requires Sound(st, events) && Holds(content, []) && !IsDelta(public)
    ensures var a := Begun(st, id, content, public); Sound(a.state, Emitted(events, a.event))
  {
    var a := Begun(st, id, content, public);
    SameFragments(events, a.event);
    if id !in st.blocks {
      NewBlockBijective(st, id, content, public);
      assert a.state.message.content == st.message.content + [content];
      assert Fragments(events, |st.message.content|) == [];
    }
  }

  lemma {:induction false} NewBlockBijective(st: State, id: nat, content: AssistantContent,
                                             public: AssistantMessageEvent)
    requires Bijective(st) && id !in st.blocks
    ensures Bijective(Begun(st, id, content, public).state)
  {
    var st' := Begun(st, id, content, public).state;
    var n := |st.message.content|;
    forall i | 0 <= i < n + 1
      ensures Owned(st'.blocks, i)
    {
      if i < n {
        assert Owned(st.blocks, i);
        var x :| x in st.blocks && st.blocks[x].index == i;
        assert x in st'.blocks && st'.blocks[x].index == i;
      } else {
        assert id in st'.blocks && st'.blocks[id].index == i;
      }
    }
  }

  // Replacing content by content of the same kind keeps the correspondence.
  lemma {:induction false} ReplacedBijective(st: State, i: nat, content: AssistantContent)
    requires Bijective(st) && i < |st.message.content| && KindOf(content) == KindOf(st.message.content[i])
    ensures Bijective(Replaced(st, i, content))
  {
    var st' := Replaced(st, i, content);
    forall k | 0 <= k < |st'.message.content|
      ensures Owned(st'.blocks, k)
    {
      assert Owned(st.blocks, k);
      var x :| x in st.blocks && st.blocks[x].index == k;
      assert x in st'.blocks && st'.blocks[x].index == k;
    }
  }

  lemma {:induction false} EndedBijective(st: State, id: nat)
    requires Bijective(st)
    ensures Bijective(st.(blocks := Ended(st.blocks, id)))
  {
    var st' := st.(blocks := Ended(st.blocks, id));
    forall k | 0 <= k < |st'.message.content|
      ensures Owned(st'.blocks, k)
    {
      assert Owned(st.blocks, k);
      var x :| x in st.blocks && st.blocks[x].index == k;
      assert x in st'.blocks && st'.blocks[x].index == k;
    }
  }

  lemma {:induction false} ExtendedSound(st: State, events: seq<AssistantMessageEvent>, id: nat, kind: BlockKind,
                                         delta: string)
    requires Sound(st, events)
    ensures var a := Extended(st, id, kind, delta); Sound(a.state, Emitted(events, a.event))
  {
    var a := Extended(st, id, kind, delta);
    match Lookup(st.blocks, id, kind)
    case Err(_) => SameFragments(events, a.event);
    case Ok(at) =>
      ReplacedBijective(st, at, Grown(st.message.content[at], delta));
      DeltaAccumulated(st, events, at, a.event.value);
  }

  lemma {:induction false} DeltaAccumulated(st: State, events: seq<AssistantMessageEvent>, at: nat,
                                            e: AssistantMessageEvent)
    requires Accumulated(st, events) && at < |st.message.content| && IsDelta(e) && e.index == at
    ensures Accumulated(Replaced(st, at, Grown(st.message.content[at], e.delta)), events + [e])
  {
    forall i: nat
      ensures Fragments(events + [e], i) ==
              if i == at then Fragments(events, i) + [e.delta] else Fragments(events, i)
    {
      FragmentsSnoc(events, e, i);
    }
    GrownHolds(st.message.content[at], Fragments(events, at), e.delta);
  }

  lemma {:induction false} SignedSound(st: State, events: seq<AssistantMessageEvent>, id: nat, sign: string)
    requires Sound(st, events)
    ensures var a := Signed(st, id, sign); Sound(a.state, Emitted(events, a.event))
  {
    var a := Signed(st, id, sign);
    SameFragments(events, a.event);
    match Lookup(st.blocks, id, ThinkingBlock)
    case Err(_) =>
    case Ok(at) =>
      var content := Thinking(st.message.content[at].thinking.(signature := Some(sign)));
      ReplacedBijective(st, at, content);
      assert Holds(content, Fragments(events, at));
  }

  lemma {:induction false} ClosedSound(st: State, events: seq<AssistantMessageEvent>, id: nat, kind: BlockKind)
    requires Sound(st, events)
    ensures var a := Closed(st, id, kind); Sound(a.state, Emitted(events, a.event))
  {
    ClosedStateSound(st, events, id, kind);
    QuietSound(Closed(st, id, kind).state, events, Closed(st, id, kind).event);
  }

  lemma {:induction false} ClosedStateSound(st: State, events: seq<AssistantMessageEvent>, id: nat, kind: BlockKind)
    requires Sound(st, events)
    ensures Sound(Closed(st, id, kind).state, events)
  {
    match Lookup(st.blocks, id, kind)
    case Err(_) =>
    case Ok(at) =>
      if kind.ToolBlock? {
        ClosedToolSound(st, events, id, at);
      } else {
        EndedSound(st, events, id);
      }
  }

  lemma {:induction false} ClosedToolSound(st: State, events: seq<AssistantMessageEvent>, id: nat, at: nat)
    requires Sound(st, events) && Lookup(st.blocks, id, ToolBlock) == Ok(at)
    ensures Sound(Closed(st, id, ToolBlock).state, events)
  {
    EndedSound(st, events, id);
    ParsedSound(st, events, id, at);
    var ended, call := st.(blocks := Ended(st.blocks, id)), st.message.content[at].call;
    var parsed := PartialJson.Parse(RawOf(call));
    if parsed.Invalid? {
      ViolatedSound(ended, events, UnrepairableArguments(call.name));
    } else {
      assert Closed(st, id, ToolBlock).state == Replaced(ended, at, Tool(call.(arguments := parsed.value)));
    }
  }

  lemma {:induction false} ViolatedSound(st: State, events: seq<AssistantMessageEvent>, text: ErrorText)
    requires Sound(st, events)
    ensures Sound(Violated(st, text).state, events)
  {
  }

  lemma {:induction false} QuietSound(st: State, events: seq<AssistantMessageEvent>,
                                      event: Option<AssistantMessageEvent>)
    requires Sound(st, events) && (event.Some? ==> !IsDelta(event.value))
    ensures Sound(st, Emitted(events, event))
  {
    SameFragments(events, event);
  }

  lemma {:induction false} EndedSound(st: State, events: seq<AssistantMessageEvent>, id: nat)
    requires Sound(st, events)
    ensures Sound(st.(blocks := Ended(st.blocks, id)), events)
  {
    EndedBijective(st, id);
  }

  // A tool call that ends keeps what it holds, its arguments parsed once more.
  lemma {:induction false} ParsedSound(st: State, events: seq<AssistantMessageEvent>, id: nat, at: nat)
    requires Sound(st, events) && Lookup(st.blocks, id, ToolBlock) == Ok(at)
    ensures var ended := st.(blocks := Ended(st.blocks, id));
            var call := st.message.content[at].call;
            var parsed := PartialJson.Parse(RawOf(call));
            !parsed.Invalid? ==> Sound(Replaced(ended, at, Tool(call.(arguments := parsed.value))), events)
  {
    var ended, call := st.(blocks := Ended(st.blocks, id)), st.message.content[at].call;
    EndedBijective(st, id);
    if !PartialJson.Parse(RawOf(call)).Invalid? {
      var content := Tool(call.(arguments := PartialJson.Parse(RawOf(call)).value));
      ReplacedBijective(ended, at, content);
      EmptyIsEmptyObject();
      assert Holds(content, Fragments(events, at));
    }
  }

  // A call that received no arguments has the empty object.
  lemma {:induction false} EmptyIsEmptyObject()
    ensures PartialJson.Parse("") == PartialJson.Partial(PartialJson.EMPTY_OBJECT)
  {
    assert PartialJson.StrictText("") == None;
  }

  lemma {:induction false} StepSound(st: State, events: seq<AssistantMessageEvent>, e: ProtocolEvent)
    requires Sound(st, events)
    ensures var a := Step(st, e); Sound(a.state, Emitted(events, a.event))
  {
    var a := Step(st, e);
    if st.stopped && IsContentEvent(e) {
      SameFragments(events, a.event);
    } else if IsContentEvent(e) {
      BlockEventSound(st, events, e);
    } else {
      SameFragments(events, a.event);
    }
  }

  lemma {:induction false} BlockEventSound(st: State, events: seq<AssistantMessageEvent>, e: ProtocolEvent)
    requires Sound(st, events) && IsContentEvent(e) && !st.stopped
    ensures var a := Step(st, e); Sound(a.state, Emitted(events, a.event))
  {
    var n := |st.message.content|;
    match e
    case TextStart(id, signature) =>
      BegunSound(st, events, id, Text(TextContent("", signature)), AssistantMessageEvent.TextStart(n));
    case ThinkingStart(id, signature, redacted) =>
      BegunSound(st, events, id, Thinking(ThinkingContent("", signature, redacted)),
                 AssistantMessageEvent.ThinkingStart(n));
    case ToolCallStart(id, callId, name) =>
      BegunSound(st, events, id, Tool(ToolCall(callId, name, PartialJson.EMPTY_OBJECT, None)),
                 AssistantMessageEvent.ToolCallStart(n, callId, name));
    case TextDelta(id, delta) => ExtendedSound(st, events, id, TextBlock, delta);
    case ThinkingDelta(id, delta) => ExtendedSound(st, events, id, ThinkingBlock, delta);
    case ToolCallDelta(id, delta) => ExtendedSound(st, events, id, ToolBlock, delta);
    case ThinkingSignature(id, sign) => SignedSound(st, events, id, sign);
    case TextEnd(id) => ClosedSound(st, events, id, TextBlock);
    case ThinkingEnd(id) => ClosedSound(st, events, id, ThinkingBlock);
    case ToolCallEnd(id) => ClosedSound(st, events, id, ToolBlock);
  }

  // ---------------------------------------------------------------- whole runs

  datatype Ran = Ran(state: State, events: seq<AssistantMessageEvent>)

  // Every event of a list applied in turn.
  function Run(st: State, input: seq<ProtocolEvent>): (r: Ran)
    requires Placed(st)
    ensures Placed(r.state)
    decreases |input|
  {
    if input == [] then Ran(st, [])
    else
      var before := Run(st, input[..|input| - 1]);
      var a := Step(before.state, input[|input| - 1]);
      Ran(a.state, Emitted(before.events, a.event))
  }

  // In every reachable state the block map is a bijection onto the content indices with
  // matching kinds, and each block holds exactly the concatenation of its deltas.
  lemma {:induction false} ReachableIsSound(message: AssistantMessage, input: seq<ProtocolEvent>)
    requires message.content == []
    ensures var r := Run(Initial(message), input); Sound(r.state, r.events)
    decreases |input|
  {
    if input != [] {
      ReachableIsSound(message, input[..|input| - 1]);
      var before := Run(Initial(message), input[..|input| - 1]);
      StepSound(before.state, before.events, input[|input| - 1]);
    }
  }

  // What an end event carries: the block's whole text, and for a tool call the parse of it.
  predicate EndCarries(e: AssistantMessageEvent, events: seq<AssistantMessageEvent>) {
    && (e.TextEnd? ==> e.text.text == Concat(Fragments(events, e.index)))
    && (e.ThinkingEnd? ==> e.thinking.thinking == Concat(Fragments(events, e.index)))
    && (e.ToolCallEnd? ==>
      && e.call.rawArguments == RawAfter(Fragments(events, e.index))
      && var parsed := PartialJson.Parse(Concat(Fragments(events, e.index)));
         !parsed.Invalid? && e.call.arguments == parsed.value)
  }

  lemma {:induction false} EndsCarryDeltas(st: State, events: seq<AssistantMessageEvent>, e: ProtocolEvent)
    requires Sound(st, events)
    ensures var a := Step(st, e); a.event.Some? ==> EndCarries(a.event.value, events)
  {
    match e
    case TextEnd(id) => ClosedCarries(st, events, id, TextBlock);
    case ThinkingEnd(id) => ClosedCarries(st, events, id, ThinkingBlock);
    case ToolCallEnd(id) => ClosedCarries(st, events, id, ToolBlock);
    case _ => OtherEndsNothing(st, e);
  }

  predicate IsPublicEnd(e: AssistantMessageEvent) {
    e.TextEnd? || e.ThinkingEnd? || e.ToolCallEnd?
  }

  lemma {:induction false} OtherEndsNothing(st: State, e: ProtocolEvent)
    requires Placed(st) && !e.TextEnd? && !e.ThinkingEnd? && !e.ToolCallEnd?
    ensures Step(st, e).event.Some? ==> !IsPublicEnd(Step(st, e).event.value)
  {
  }

  lemma {:induction false} ClosedCarries(st: State, events: seq<AssistantMessageEvent>, id: nat, kind: BlockKind)
    requires Sound(st, events)
    ensures var a := Closed(st, id, kind); a.event.Some? ==> EndCarries(a.event.value, events)
  {
    match Lookup(st.blocks, id, kind)
    case Err(_) =>
    case Ok(at) =>
      assert Holds(st.message.content[at], Fragments(events, at));
  }

  // Only an unrepairable argument text makes a well-ordered end fail.
  lemma {:induction false} EndFailsExactly(st: State, events: seq<AssistantMessageEvent>, id: nat)
    requires Sound(st, events) && !st.stopped && Lookup(st.blocks, id, ToolBlock).Ok?
    ensures var a := Step(st, ProtocolEvent.ToolCallEnd(id));
            a.event.Some? && (a.event.value.Failed? <==>
              PartialJson.Parse(Concat(Fragments(events, st.blocks[id].index))).Invalid?)
  {
    assert Holds(st.message.content[st.blocks[id].index], Fragments(events, st.blocks[id].index));
  }
}
