// What a run of protocol events that the assembler accepts says about those events.
module ProtocolRuns {
  import opened Prelude
  import opened Messages
  import opened Adapters
  import opened Assembler
  import opened AssemblerTheorems
  import opened Driver
  import opened Projection
  import PartialJson

  // The state after every event of a list, whatever became of each.
  function After(st: State, events: seq<ProtocolEvent>): (r: State)
    requires Placed(st)
    ensures Placed(r)
    decreases |events|
  {
    if events == [] then st else After(Step(st, events[0]).state, events[1..])
  }

  predicate Rejects(st: State, e: ProtocolEvent)
    requires Placed(st)
  {
    Step(st, e).event.Some? && Step(st, e).event.value.Failed?
  }

  predicate Accepted(st: State, events: seq<ProtocolEvent>)
    requires Placed(st)
    decreases |events|
  {
    events == [] || (!Rejects(st, events[0]) && Accepted(Step(st, events[0]).state, events[1..]))
  }

  lemma {:induction false} AfterAppend(st: State, a: seq<ProtocolEvent>, b: seq<ProtocolEvent>)
    requires Placed(st)
    ensures After(st, a + b) == After(After(st, a), b)
    ensures Accepted(st, a + b) <==> Accepted(st, a) && Accepted(After(st, a), b)
    decreases |a|
  {
    if a == [] {
      assert a + b == b;
    } else {
      assert (a + b)[0] == a[0] && (a + b)[1..] == a[1..] + b;
      AfterAppend(Step(st, a[0]).state, a[1..], b);
    }
  }

  lemma {:induction false} AfterOne(st: State, e: ProtocolEvent)
    requires Placed(st)
    ensures After(st, [e]) == Step(st, e).state
    ensures Accepted(st, [e]) <==> !Rejects(st, e)
  {
    assert [e][1..] == [];
  }

  lemma {:induction false} AfterTwo(st: State, e: ProtocolEvent, f: ProtocolEvent)
    requires Placed(st)
    ensures After(st, [e, f]) == Step(Step(st, e).state, f).state
    ensures Accepted(st, [e, f]) <==> !Rejects(st, e) && !Rejects(Step(st, e).state, f)
  {
    AfterOne(st, e);
    AfterOne(Step(st, e).state, f);
    AfterAppend(st, [e], [f]);
    assert [e] + [f] == [e, f];
  }

  // ---------------------------------------------------------------- counting

  predicate IsStart(e: ProtocolEvent) {
    e.TextStart? || e.ThinkingStart? || e.ToolCallStart?
  }

  predicate IsEnd(e: ProtocolEvent) {
    e.TextEnd? || e.ThinkingEnd? || e.ToolCallEnd?
  }

  function KindOfEvent(e: ProtocolEvent): BlockKind {
    if e.TextStart? || e.TextDelta? || e.TextEnd? then TextBlock
    else if e.ToolCallStart? || e.ToolCallDelta? || e.ToolCallEnd? then ToolBlock
    else ThinkingBlock
  }

  function One(b: bool): nat {
    if b then 1 else 0
  }

  // How many times the block is started as this kind, and ended as it.
  function Starts(events: seq<ProtocolEvent>, id: nat, kind: BlockKind): nat
    decreases |events|
  {
    if events == [] then 0
    else One(IsStart(events[0]) && events[0].id == id && KindOfEvent(events[0]) == kind) + Starts(events[1..], id, kind)
  }

  function Ends(events: seq<ProtocolEvent>, id: nat, kind: BlockKind): nat
    decreases |events|
  {
    if events == [] then 0
    else One(IsEnd(events[0]) && events[0].id == id && KindOfEvent(events[0]) == kind) + Ends(events[1..], id, kind)
  }

  function Open(st: State, id: nat, kind: BlockKind): nat {
    One(id in st.blocks && st.blocks[id].kind == kind)
  }

  function Over(st: State, id: nat, kind: BlockKind): nat {
    One(id in st.blocks && st.blocks[id].kind == kind && st.blocks[id].ended)
  }

  lemma {:induction false} StartCounts(st: State, e: ProtocolEvent, id: nat, kind: BlockKind)
    requires Placed(st) && !Rejects(st, e) && IsStart(e)
    ensures var st' := Step(st, e).state;
            && One(e.id == id && KindOfEvent(e) == kind) + Open(st, id, kind) == Open(st', id, kind)
            && Over(st, id, kind) == Over(st', id, kind)
  {
  }

  lemma {:induction false} EndCounts(st: State, e: ProtocolEvent, id: nat, kind: BlockKind)
    requires Placed(st) && !Rejects(st, e) && IsEnd(e)
    ensures var st' := Step(st, e).state;
            && One(e.id == id && KindOfEvent(e) == kind) + Over(st, id, kind) == Over(st', id, kind)
            && Open(st, id, kind) == Open(st', id, kind)
  {
  }

  lemma {:induction false} StepCounts(st: State, e: ProtocolEvent, id: nat, kind: BlockKind)
    requires Placed(st) && !Rejects(st, e)
    ensures var st' := Step(st, e).state;
            && One(IsStart(e) && e.id == id && KindOfEvent(e) == kind) + Open(st, id, kind) == Open(st', id, kind)
            && One(IsEnd(e) && e.id == id && KindOfEvent(e) == kind) + Over(st, id, kind) == Over(st', id, kind)
  {
    if IsStart(e) {
      StartCounts(st, e, id, kind);
    } else if IsEnd(e) {
      EndCounts(st, e, id, kind);
    } else {
      assert Step(st, e).state.blocks == st.blocks;
    }
  }

  // In an accepted run a block is started once, when it enters the map, and ended once,
  // when it is marked.
  lemma {:induction false} CountsMatch(st: State, events: seq<ProtocolEvent>, id: nat, kind: BlockKind)
    requires Placed(st) && Accepted(st, events)
    ensures Starts(events, id, kind) + Open(st, id, kind) == Open(After(st, events), id, kind)
    ensures Ends(events, id, kind) + Over(st, id, kind) == Over(After(st, events), id, kind)
    decreases |events|
  {
    if events != [] {
      StepCounts(st, events[0], id, kind);
      CountsMatch(Step(st, events[0]).state, events[1..], id, kind);
    }
  }

  // Every block that is started is started once, as one kind, and ended once, as that kind.
  ghost predicate OnceEach(events: seq<ProtocolEvent>) {
    && (forall id, kind :: Starts(events, id, kind) <= 1 && Ends(events, id, kind) == Starts(events, id, kind))
    && (forall id, x, y :: Starts(events, id, x) == 1 && Starts(events, id, y) == 1 ==> x == y)
  }

  ghost predicate AllEnded(st: State) {
    forall id :: id in st.blocks ==> st.blocks[id].ended
  }

  lemma {:induction false} EndedOnceEach(message: AssistantMessage, events: seq<ProtocolEvent>)
    requires Accepted(Initial(message), events) && AllEnded(After(Initial(message), events))
    ensures OnceEach(events)
  {
    forall id: nat, kind: BlockKind
      ensures Starts(events, id, kind) == Open(After(Initial(message), events), id, kind)
      ensures Ends(events, id, kind) == Over(After(Initial(message), events), id, kind)
    {
      CountsMatch(Initial(message), events, id, kind);
    }
  }

  // ---------------------------------------------------------------- single events

  lemma {:induction false} StepBijective(st: State, e: ProtocolEvent)
    requires Bijective(st)
    ensures Bijective(Step(st, e).state)
  {
    if IsContentEvent(e) && !st.stopped {
      var n := |st.message.content|;
      match e
      case TextStart(id, signature) =>
        BegunBijective(st, id, Text(TextContent("", signature)), AssistantMessageEvent.TextStart(n));
      case ThinkingStart(id, signature, redacted) =>
        BegunBijective(st, id, Thinking(ThinkingContent("", signature, redacted)),
                       AssistantMessageEvent.ThinkingStart(n));
      case ToolCallStart(id, callId, name) =>
        BegunBijective(st, id, Tool(ToolCall(callId, name, PartialJson.EMPTY_OBJECT, None)),
                       AssistantMessageEvent.ToolCallStart(n, callId, name));
      case TextDelta(id, delta) => ExtendedBijective(st, id, TextBlock, delta);
      case ThinkingDelta(id, delta) => ExtendedBijective(st, id, ThinkingBlock, delta);
      case ToolCallDelta(id, delta) => ExtendedBijective(st, id, ToolBlock, delta);
      case ThinkingSignature(id, sign) => SignedBijective(st, id, sign);
      case TextEnd(id) => ClosedBijective(st, id, TextBlock);
      case ThinkingEnd(id) => ClosedBijective(st, id, ThinkingBlock);
      case ToolCallEnd(id) => ClosedBijective(st, id, ToolBlock);
    }
  }

  lemma {:induction false} BegunBijective(st: State, id: nat, content: AssistantContent, public: AssistantMessageEvent)
    requires Bijective(st)
    ensures Bijective(Begun(st, id, content, public).state)
  {
    if id !in st.blocks {
      NewBlockBijective(st, id, content, public);
    }
  }

  lemma {:induction false} ExtendedBijective(st: State, id: nat, kind: BlockKind, delta: string)
    requires Bijective(st)
    ensures Bijective(Extended(st, id, kind, delta).state)
  {
    if Lookup(st.blocks, id, kind).Ok? {
      var i := st.blocks[id].index;
      ReplacedBijective(st, i, Grown(st.message.content[i], delta));
    }
  }

  lemma {:induction false} SignedBijective(st: State, id: nat, sign: string)
    requires Bijective(st)
    ensures Bijective(Signed(st, id, sign).state)
  {
    if Lookup(st.blocks, id, ThinkingBlock).Ok? {
      var i := st.blocks[id].index;
      ReplacedBijective(st, i, Thinking(st.message.content[i].thinking.(signature := Some(sign))));
    }
  }

  lemma {:induction false} ClosedBijective(st: State, id: nat, kind: BlockKind)
    requires Bijective(st)
    ensures Bijective(Closed(st, id, kind).state)
  {
    if Lookup(st.blocks, id, kind).Ok? {
      EndedBijective(st, id);
      var i := st.blocks[id].index;
      var c := st.message.content[i];
      if c.Tool? && !PartialJson.Parse(RawOf(c.call)).Invalid? {
        ReplacedBijective(st.(blocks := Ended(st.blocks, id)), i,
                          Tool(c.call.(arguments := PartialJson.Parse(RawOf(c.call)).value)));
      }
    }
  }

  // The streamed text of a block.
  function BodyAt(st: State, id: nat): string
    requires Placed(st) && id in st.blocks
  {
    Body(st.message.content[st.blocks[id].index])
  }

  // Every other block is as it was.
  ghost predicate OthersKept(st: State, st': State, id: nat)
    requires Placed(st) && Placed(st')
  {
    forall x :: x in st.blocks && x != id ==>
      x in st'.blocks && st'.blocks[x] == st.blocks[x] && BodyAt(st', x) == BodyAt(st, x)
  }

  lemma {:induction false} StartStep(st: State, e: ProtocolEvent)
    requires Bijective(st) && !st.stopped && IsStart(e) && e.id !in st.blocks
    ensures var st' := Step(st, e).state;
            && !Rejects(st, e) && !st'.stopped && OthersKept(st, st', e.id)
            && st'.blocks.Keys == st.blocks.Keys + {e.id} && st'.blocks[e.id].kind == KindOfEvent(e) &&
               !st'.blocks[e.id].ended
            && BodyAt(st', e.id) == ""
  {
  }

  lemma {:induction false} AcceptedStartIsNew(st: State, e: ProtocolEvent)
    requires Placed(st) && IsStart(e) && !Rejects(st, e)
    ensures e.id !in st.blocks
  {
  }

  predicate IsPiece(e: ProtocolEvent) {
    e.TextDelta? || e.ThinkingDelta? || e.ToolCallDelta?
  }

  lemma {:induction false} PieceStep(st: State, e: ProtocolEvent)
    requires Bijective(st) && !st.stopped && IsPiece(e) && Lookup(st.blocks, e.id, KindOfEvent(e)).Ok?
    ensures var st' := Step(st, e).state;
            && !Rejects(st, e) && !st'.stopped && OthersKept(st, st', e.id)
            && st'.blocks == st.blocks && BodyAt(st', e.id) == BodyAt(st, e.id) + e.delta
  {
  }

  lemma {:induction false} PieceRejects(st: State, e: ProtocolEvent)
    requires Placed(st) && !st.stopped && IsPiece(e)
    ensures Rejects(st, e) <==> !Lookup(st.blocks, e.id, KindOfEvent(e)).Ok?
  {
  }

  lemma {:induction false} SignatureRejects(st: State, e: ProtocolEvent)
    requires Placed(st) && !st.stopped && e.ThinkingSignature?
    ensures Rejects(st, e) <==> !Lookup(st.blocks, e.id, ThinkingBlock).Ok?
  {
  }

  lemma {:induction false} SignatureStep(st: State, e: ProtocolEvent)
    requires Bijective(st) && !st.stopped && e.ThinkingSignature? && Lookup(st.blocks, e.id, ThinkingBlock).Ok?
    ensures var st' := Step(st, e).state;
            && !Rejects(st, e) && !st'.stopped && OthersKept(st, st', e.id)
            && st'.blocks == st.blocks && BodyAt(st', e.id) == BodyAt(st, e.id)
  {
  }

  // An end closes its block, and fails only for the arguments of a tool call.
  lemma {:induction false} EndStep(st: State, e: ProtocolEvent)
    requires Bijective(st) && !st.stopped && IsEnd(e) && Lookup(st.blocks, e.id, KindOfEvent(e)).Ok?
    ensures var st' := Step(st, e).state;
            && (Rejects(st, e) <==> e.ToolCallEnd? && PartialJson.Parse(BodyAt(st, e.id)).Invalid?)
            && !st'.stopped && OthersKept(st, st', e.id)
            && st'.blocks == st.blocks[e.id := st.blocks[e.id].(ended := true)] && BodyAt(st', e.id) == BodyAt(st, e.id)
  {
  }

  // ---------------------------------------------------------------- order

  predicate Unrepairable(st: State, e: ProtocolEvent)
    requires Placed(st)
  {
    e.ToolCallEnd? && e.id in st.blocks && PartialJson.Parse(BodyAt(st, e.id)).Invalid?
  }

  // No event breaks the order of blocks: what is rejected is a failure the adapter itself
  // reports, or a tool call whose arguments cannot be repaired.
  predicate Orderly(st: State, events: seq<ProtocolEvent>)
    requires Placed(st)
    decreases |events|
  {
    events == [] || (
      && (Rejects(st, events[0]) ==> events[0].Failure? || Unrepairable(st, events[0]))
      && Orderly(Step(st, events[0]).state, events[1..]))
  }

  lemma {:induction false} OrderlyAppend(st: State, a: seq<ProtocolEvent>, b: seq<ProtocolEvent>)
    requires Placed(st)
    ensures Orderly(st, a + b) <==> Orderly(st, a) && Orderly(After(st, a), b)
    decreases |a|
  {
    if a == [] {
      assert a + b == b;
    } else {
      assert (a + b)[0] == a[0] && (a + b)[1..] == a[1..] + b;
      OrderlyAppend(Step(st, a[0]).state, a[1..], b);
    }
  }

  lemma {:induction false} AcceptedIsOrderly(st: State, events: seq<ProtocolEvent>)
    requires Placed(st) && Accepted(st, events)
    ensures Orderly(st, events)
    decreases |events|
  {
    if events != [] {
      AcceptedIsOrderly(Step(st, events[0]).state, events[1..]);
    }
  }

  // The report of usage and the stop that end every completed stream.
  lemma {:induction false} ReportAndStop(st: State, usage: Usage, reason: StopReason, raw: Option<string>)
    requires Placed(st)
    ensures var events := [UsageReport(usage), StopEvent(reason, raw)];
            Accepted(st, events) && Orderly(st, events) && After(st, events).blocks == st.blocks
  {
    AfterTwo(st, UsageReport(usage), StopEvent(reason, raw));
    AcceptedIsOrderly(st, [UsageReport(usage), StopEvent(reason, raw)]);
  }

  // ---------------------------------------------------------------- the driver

  // An adapter's events, none of them cut off.
  function Nexts(events: seq<ProtocolEvent>): seq<AdapterStep> {
    if events == [] then [] else [Next(events[0])] + Nexts(events[1..])
  }

  function Last(trace: seq<Traced>): AssistantMessageEvent
    requires trace != []
  {
    trace[|trace| - 1].event
  }

  lemma {:induction false} LoopEnds(st: State, reason: Option<StopReason>, steps: seq<AdapterStep>)
    requires Placed(st)
    ensures Loop(st, reason, steps) != []
    decreases |steps|
  {
    if steps != [] {
      var t := Turn(st, reason, steps[0]);
      if !t.last {
        LoopEnds(t.state, t.reason, steps[1..]);
      }
    }
  }

  // A run that ends in `Done` accepted every event of the adapter.
  lemma {:induction false} DoneMeansAccepted(st: State, reason: Option<StopReason>, events: seq<ProtocolEvent>)
    requires Placed(st)
    ensures Loop(st, reason, Nexts(events)) != []
    ensures Last(Loop(st, reason, Nexts(events))).Done? ==> Accepted(st, events)
    decreases |events|
  {
    if events != [] {
      var steps := Nexts(events);
      assert steps[0] == Next(events[0]) && steps[1..] == Nexts(events[1..]);
      var t := Turn(st, reason, steps[0]);
      LoopEnds(st, reason, steps);
      if !t.last {
        DoneMeansAccepted(t.state, t.reason, events[1..]);
        assert t.state == Step(st, events[0]).state;
      } else {
        assert Loop(st, reason, steps) == [Traced(t.event.value, t.state)];
        StepNotDone(st, events[0]);
      }
    }
  }
}
