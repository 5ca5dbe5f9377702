// The OpenAI adapter never breaks the order of blocks, and finishes every block it opens.
module OpenAiTheorems {
  import opened Prelude
  import opened Messages
  import opened Adapters
  import opened Assembler
  import opened AssemblerTheorems
  import opened ProtocolRuns
  import opened OpenAiAdapter
  import Driver
  import Executor
  import JsonText
  import PartialJson

  // ---------------------------------------------------------------- slots and blocks

  // Which slot a block id was handed out to.
  datatype Owner = ForDetails | ForThinking | ForText | ForTool(k: nat)

  function OwnerKind(o: Owner): BlockKind {
    match o
    case ForDetails => ThinkingBlock
    case ForThinking => ThinkingBlock
    case ForText => TextBlock
    case ForTool(_) => ToolBlock
  }

  function SlotOf(s: Slots, o: Owner): Option<nat> {
    match o
    case ForDetails => s.details
    case ForThinking => s.thinking
    case ForText => s.text
    case ForTool(k) => if k < |s.tools| then s.tools[k].block else None
  }

  // The assembler knows exactly the ids handed out, each as its owner's kind; those in
  // `done` have ended.
  ghost predicate Laid(st: State, owners: seq<Owner>, done: set<nat>) {
    && Bijective(st) && !st.stopped
    && (forall id: nat :: id in st.blocks <==> id < |owners|)
    && forall id :: id in st.blocks ==>
         st.blocks[id].kind == OwnerKind(owners[id]) && (st.blocks[id].ended <==> id in done)
  }

  // Slots and ids correspond one to one.
  ghost predicate Held(s: Slots, owners: seq<Owner>) {
    && s.next == |owners|
    && (forall id :: 0 <= id < |owners| ==> SlotOf(s, owners[id]) == Some(id))
    && (forall o: Owner :: SlotOf(s, o).Some? ==> SlotOf(s, o).value < |owners| && owners[SlotOf(s, o).value] == o)
  }

  // What an accumulator has collected is what the assembler holds for its block.
  ghost predicate SameArguments(s: Slots, st: State)
    requires Placed(st)
  {
    forall k :: 0 <= k < |s.tools| ==>
      match s.tools[k].block
      case None => s.tools[k].arguments == ""
      case Some(id) => id in st.blocks && BodyAt(st, id) == s.tools[k].arguments
  }

  ghost predicate Agrees(s: Slots, st: State, owners: seq<Owner>) {
    Laid(st, owners, {}) && Held(s, owners) && SameArguments(s, st)
  }

  // `s'` has handed the next id to `owner`.
  ghost predicate Hands(s: Slots, s': Slots, owner: Owner) {
    && s'.next == s.next + 1
    && forall o: Owner :: SlotOf(s', o) == if o == owner then Some(s.next) else SlotOf(s, o)
  }

  lemma {:induction false} HandedHeld(s: Slots, s': Slots, owners: seq<Owner>, owner: Owner)
    requires Held(s, owners) && Hands(s, s', owner) && SlotOf(s, owner) == None
    ensures Held(s', owners + [owner])
  {
    forall id | 0 <= id < |owners + [owner]|
      ensures SlotOf(s', (owners + [owner])[id]) == Some(id)
    {
      if id < |owners| {
        assert SlotOf(s, owners[id]) == Some(id);
      }
    }
    forall o: Owner | SlotOf(s', o).Some?
      ensures SlotOf(s', o).value < |owners| + 1 && (owners + [owner])[SlotOf(s', o).value] == o
    {
      if o != owner {
        assert SlotOf(s, o).Some?;
      }
    }
  }

  lemma {:induction false} SameSlotsHeld(s: Slots, s': Slots, owners: seq<Owner>)
    requires Held(s, owners) && s'.next == s.next && forall o: Owner :: SlotOf(s', o) == SlotOf(s, o)
    ensures Held(s', owners)
  {
    forall o: Owner | SlotOf(s', o).Some?
      ensures SlotOf(s', o).value < |owners| && owners[SlotOf(s', o).value] == o
    {
      assert SlotOf(s, o).Some?;
    }
  }

  // What happens to a block that is no tool call's leaves every accumulator's text as it was.
  lemma {:induction false} ArgumentsKept(s: Slots, s': Slots, st: State, st': State, owners: seq<Owner>, id: nat)
    requires Placed(st) && Placed(st') && Held(s, owners) && SameArguments(s, st) && OthersKept(st, st', id)
    requires s'.tools == s.tools && (id < |owners| ==> !owners[id].ForTool?)
    ensures SameArguments(s', st')
  {
    forall k | 0 <= k < |s.tools| && s.tools[k].block.Some?
      ensures s.tools[k].block.value in st'.blocks && BodyAt(st', s.tools[k].block.value) == s.tools[k].arguments
    {
      assert SlotOf(s, ForTool(k)) == s.tools[k].block;
    }
  }

  // ---------------------------------------------------------------- one event

  lemma {:induction false} StartLaid(st: State, owners: seq<Owner>, e: ProtocolEvent, owner: Owner)
    requires Laid(st, owners, {}) && IsStart(e) && e.id == |owners| && KindOfEvent(e) == OwnerKind(owner)
    ensures var st' := Step(st, e).state;
            !Rejects(st, e) && Laid(st', owners + [owner], {}) && OthersKept(st, st', e.id) && BodyAt(st', e.id) == ""
  {
    StartStep(st, e);
    StepBijective(st, e);
    var st' := Step(st, e).state;
    forall id | id in st'.blocks
      ensures st'.blocks[id].kind == OwnerKind((owners + [owner])[id]) && !st'.blocks[id].ended
    {
      if id != e.id {
        assert id in st.blocks;
      }
    }
  }

  lemma {:induction false} PieceLaid(st: State, owners: seq<Owner>, e: ProtocolEvent)
    requires Laid(st, owners, {}) && IsPiece(e) && e.id < |owners| && KindOfEvent(e) == OwnerKind(owners[e.id])
    ensures var st' := Step(st, e).state;
            && !Rejects(st, e) && Laid(st', owners, {}) && OthersKept(st, st', e.id)
            && BodyAt(st', e.id) == BodyAt(st, e.id) + e.delta
  {
    PieceStep(st, e);
    StepBijective(st, e);
  }

  // A block begins and receives its first piece.
  lemma {:induction false} StartedLaid(st: State, owners: seq<Owner>, e: ProtocolEvent, f: ProtocolEvent, owner: Owner)
    requires Laid(st, owners, {}) && IsStart(e) && e.id == |owners| && KindOfEvent(e) == OwnerKind(owner)
    requires IsPiece(f) && f.id == e.id && KindOfEvent(f) == OwnerKind(owner)
    ensures var st' := After(st, [e, f]);
            && Accepted(st, [e, f]) && Laid(st', owners + [owner], {}) && OthersKept(st, st', e.id)
            && BodyAt(st', e.id) == f.delta
  {
    StartLaid(st, owners, e, owner);
    PieceLaid(Step(st, e).state, owners + [owner], f);
    AfterTwo(st, e, f);
  }

  // ---------------------------------------------------------------- pieces of a chunk

  lemma {:induction false} DetailAgrees(wire: Wire, s: Slots, st: State, owners: seq<Owner>, detail: JsonText.Value)
    returns (owners': seq<Owner>)
    requires Agrees(s, st, owners)
    ensures var e := TakeDetail(wire, s, detail);
            Accepted(st, e.events) && Agrees(e.slots, After(st, e.events), owners')
  {
    owners' := owners;
    var s' := TakeDetail(wire, s, detail).slots;
    if s.details.Some? {
      SameSlotsHeld(s, s', owners);
    } else {
      owners' := owners + [ForDetails];
      HandedHeld(s, s', owners, ForDetails);
      var e := ProtocolEvent.ThinkingStart(s.next, None, false);
      StartLaid(st, owners, e, ForDetails);
      AfterOne(st, e);
      ArgumentsKept(s, s', st, Step(st, e).state, owners, s.next);
    }
  }

  lemma {:induction false} ReasoningAgrees(s: Slots, st: State, owners: seq<Owner>, delta: Option<(string, string)>)
    returns (owners': seq<Owner>)
    requires Agrees(s, st, owners)
    ensures var e := TakeReasoning(s, delta); Accepted(st, e.events) && Agrees(e.slots, After(st, e.events), owners')
  {
    owners' := owners;
    var s' := TakeReasoning(s, delta).slots;
    if delta.Some? {
      if s.thinking.Some? {
        assert SlotOf(s, ForThinking) == s.thinking;
        var f := ProtocolEvent.ThinkingDelta(s.thinking.value, delta.value.1);
        PieceLaid(st, owners, f);
        AfterOne(st, f);
        ArgumentsKept(s, s', st, Step(st, f).state, owners, f.id);
      } else {
        owners' := owners + [ForThinking];
        HandedHeld(s, s', owners, ForThinking);
        StartedLaid(st, owners, ProtocolEvent.ThinkingStart(s.next, Some(delta.value.0), false),
                    ProtocolEvent.ThinkingDelta(s.next, delta.value.1), ForThinking);
        ArgumentsKept(s, s', st, After(st, TakeReasoning(s, delta).events), owners, s.next);
      }
    }
  }

  lemma {:induction false} TextAgrees(s: Slots, st: State, owners: seq<Owner>, content: Option<string>)
    returns (owners': seq<Owner>)
    requires Agrees(s, st, owners)
    ensures var e := TakeText(s, content); Accepted(st, e.events) && Agrees(e.slots, After(st, e.events), owners')
  {
    owners' := owners;
    var s' := TakeText(s, content).slots;
    if Given(content) {
      if s.text.Some? {
        assert SlotOf(s, ForText) == s.text;
        var f := ProtocolEvent.TextDelta(s.text.value, content.value);
        PieceLaid(st, owners, f);
        AfterOne(st, f);
        ArgumentsKept(s, s', st, Step(st, f).state, owners, f.id);
      } else {
        owners' := owners + [ForText];
        HandedHeld(s, s', owners, ForText);
        StartedLaid(st, owners, ProtocolEvent.TextStart(s.next, None), ProtocolEvent.TextDelta(s.next, content.value),
                    ForText);
        ArgumentsKept(s, s', st, After(st, TakeText(s, content).events), owners, s.next);
      }
    }
  }

  // ---------------------------------------------------------------- tool calls

  lemma {:induction false} ResizedAgrees(s: Slots, st: State, owners: seq<Owner>, slot: nat)
    requires Agrees(s, st, owners)
    ensures Agrees(s.(tools := Resized(s.tools, slot)), st, owners)
  {
    var s' := s.(tools := Resized(s.tools, slot));
    forall o: Owner
      ensures SlotOf(s', o) == SlotOf(s, o)
    {
    }
    SameSlotsHeld(s, s', owners);
  }

  // Another accumulator's block is not this one.
  lemma {:induction false} OtherArguments(s: Slots, s': Slots, st: State, st': State, slot: nat, id: nat)
    requires Placed(st) && Placed(st') && SameArguments(s, st) && OthersKept(st, st', id)
    requires slot < |s.tools| == |s'.tools| && s'.tools == s.tools[slot := s'.tools[slot]]
    requires forall k :: 0 <= k < |s.tools| && k != slot ==> s.tools[k].block != Some(id)
    requires s'.tools[slot].block == Some(id) && id in st'.blocks && BodyAt(st', id) == s'.tools[slot].arguments
    ensures SameArguments(s', st')
  {
  }

  lemma {:induction false} OnlyOwner(s: Slots, owners: seq<Owner>, slot: nat, id: nat)
    requires Held(s, owners) && (id < |owners| ==> owners[id] == ForTool(slot))
    ensures forall k :: 0 <= k < |s.tools| && k != slot ==> s.tools[k].block != Some(id)
  {
    forall k | 0 <= k < |s.tools| && s.tools[k].block == Some(id)
      ensures k == slot
    {
      assert SlotOf(s, ForTool(k)) == Some(id);
    }
  }

  lemma {:induction false} ToolStarts(s: Slots, st: State, owners: seq<Owner>, d: ToolDelta)
    requires Agrees(s, st, owners) && d.slot < |s.tools| && Startable(Updated(s.tools[d.slot], d), d)
    ensures var e := TakeTool(s, d);
            Accepted(st, e.events) && Agrees(e.slots, After(st, e.events), owners + [ForTool(d.slot)])
  {
    var accum, e := Updated(s.tools[d.slot], d), TakeTool(s, d);
    assert SlotOf(s, ForTool(d.slot)) == None;
    assert Hands(s, e.slots, ForTool(d.slot));
    HandedHeld(s, e.slots, owners, ForTool(d.slot));
    var start := ProtocolEvent.ToolCallStart(s.next, accum.id, accum.name);
    if Given(d.arguments) {
      StartedLaid(st, owners, start, ProtocolEvent.ToolCallDelta(s.next, d.arguments.value), ForTool(d.slot));
      assert e.events == [start, ProtocolEvent.ToolCallDelta(s.next, d.arguments.value)];
    } else {
      StartLaid(st, owners, start, ForTool(d.slot));
      AfterOne(st, start);
      assert e.events == [start];
    }
    OnlyOwner(s, owners, d.slot, s.next);
    OtherArguments(s, e.slots, st, After(st, e.events), d.slot, s.next);
  }

  lemma {:induction false} ToolGrows(s: Slots, st: State, owners: seq<Owner>, d: ToolDelta)
    requires Agrees(s, st, owners) && d.slot < |s.tools| && s.tools[d.slot].block.Some?
    ensures var e := TakeTool(s, d);
            Accepted(st, e.events) && Agrees(e.slots, After(st, e.events), owners)
  {
    var e, id := TakeTool(s, d), s.tools[d.slot].block.value;
    assert SlotOf(s, ForTool(d.slot)) == Some(id);
    forall o: Owner
      ensures SlotOf(e.slots, o) == SlotOf(s, o)
    {
    }
    SameSlotsHeld(s, e.slots, owners);
    if Given(d.arguments) {
      var f := ProtocolEvent.ToolCallDelta(id, d.arguments.value);
      PieceLaid(st, owners, f);
      AfterOne(st, f);
    }
    OnlyOwner(s, owners, d.slot, id);
    OtherArguments(s, e.slots, st, After(st, e.events), d.slot, id);
  }

  // Nothing is known of the call yet.
  lemma {:induction false} ToolWaits(s: Slots, st: State, owners: seq<Owner>, d: ToolDelta)
    requires Agrees(s, st, owners) && d.slot < |s.tools|
    requires s.tools[d.slot].block.None? && !Startable(Updated(s.tools[d.slot], d), d)
    ensures var e := TakeTool(s, d);
            Accepted(st, e.events) && Agrees(e.slots, After(st, e.events), owners)
  {
    var e := TakeTool(s, d);
    forall o: Owner
      ensures SlotOf(e.slots, o) == SlotOf(s, o)
    {
    }
    SameSlotsHeld(s, e.slots, owners);
  }

  lemma {:induction false} ToolAgrees(s: Slots, st: State, owners: seq<Owner>, d: ToolDelta)
    returns (owners': seq<Owner>)
    requires Agrees(s, st, owners)
    ensures var e := TakeTool(s, d); Accepted(st, e.events) && Agrees(e.slots, After(st, e.events), owners')
  {
    var wide := s.(tools := Resized(s.tools, d.slot));
    ResizedAgrees(s, st, owners, d.slot);
    assert TakeTool(s, d) == TakeTool(wide, d);
    owners' := owners;
    if wide.tools[d.slot].block.Some? {
      ToolGrows(wide, st, owners, d);
    } else if Startable(Updated(wide.tools[d.slot], d), d) {
      ToolStarts(wide, st, owners, d);
      owners' := owners + [ForTool(d.slot)];
    } else {
      ToolWaits(wide, st, owners, d);
    }
  }

  // ---------------------------------------------------------------- a whole chunk

  lemma {:induction false} DetailsAgree(wire: Wire, s: Slots, st: State, owners: seq<Owner>,
                                        details: seq<JsonText.Value>)
    returns (owners': seq<Owner>)
    requires Agrees(s, st, owners)
    ensures var e := TakeDetails(wire, s, details);
            Accepted(st, e.events) && Agrees(e.slots, After(st, e.events), owners')
    decreases |details|
  {
    if details == [] {
      owners' := owners;
    } else {
      var n := |details| - 1;
      var before := TakeDetails(wire, s, details[..n]);
      owners' := DetailsAgree(wire, s, st, owners, details[..n]);
      owners' := DetailAgrees(wire, before.slots, After(st, before.events), owners', details[n]);
      AfterAppend(st, before.events, TakeDetail(wire, before.slots, details[n]).events);
    }
  }

  lemma {:induction false} ToolsAgree(s: Slots, st: State, owners: seq<Owner>, deltas: seq<ToolDelta>)
    returns (owners': seq<Owner>)
    requires Agrees(s, st, owners)
    ensures var e := TakeTools(s, deltas); Accepted(st, e.events) && Agrees(e.slots, After(st, e.events), owners')
    decreases |deltas|
  {
    if deltas == [] {
      owners' := owners;
    } else {
      var n := |deltas| - 1;
      var before := TakeTools(s, deltas[..n]);
      owners' := ToolsAgree(s, st, owners, deltas[..n]);
      owners' := ToolAgrees(before.slots, After(st, before.events), owners', deltas[n]);
      AfterAppend(st, before.events, TakeTool(before.slots, deltas[n]).events);
    }
  }

  lemma {:induction false} ChoiceAgrees(wire: Wire, s: Slots, st: State, owners: seq<Owner>, c: Choice)
    returns (owners': seq<Owner>)
    requires Agrees(s, st, owners)
    ensures var e := TakeChoice(wire, s, c); Accepted(st, e.events) && Agrees(e.slots, After(st, e.events), owners')
  {
    var a := TakeDetails(wire, s, c.details);
    owners' := DetailsAgree(wire, s, st, owners, c.details);
    var st1 := After(st, a.events);
    var b := TakeReasoning(a.slots, ReasoningDelta(c));
    owners' := ReasoningAgrees(a.slots, st1, owners', ReasoningDelta(c));
    var st2 := After(st1, b.events);
    var t := TakeText(b.slots, c.content);
    owners' := TextAgrees(b.slots, st2, owners', c.content);
    var st3 := After(st2, t.events);
    var d := TakeTools(t.slots, c.toolCalls);
    owners' := ToolsAgree(t.slots, st3, owners', c.toolCalls);
    AfterAppend(st, a.events, b.events);
    AfterAppend(st, a.events + b.events, t.events);
    AfterAppend(st, a.events + b.events + t.events, d.events);
  }

  // An event that touches no block.
  lemma {:induction false} QuietAgrees(s: Slots, st: State, owners: seq<Owner>, e: ProtocolEvent)
    requires Agrees(s, st, owners) && (e.Retry? || e.ResponseMetadata?)
    ensures Accepted(st, [e]) && Agrees(s, After(st, [e]), owners)
  {
    AfterOne(st, e);
    var st' := Step(st, e).state;
    assert st'.blocks == st.blocks && st'.message.content == st.message.content;
    StepBijective(st, e);
  }

  // One executor event: the adapter goes on in agreement, or has reported a failure.
  lemma {:induction false} TakeAgrees(wire: Wire, p: Progress, st: State, owners: seq<Owner>, e: Executor.ExecutorEvent)
    returns (owners': seq<Owner>)
    requires Agrees(p.slots, st, owners)
    ensures var t := Take(wire, p, e);
            if t.flow.Return? then |t.events| == 1 && t.events[0].Failure?
            else Accepted(st, t.events) && Agrees(t.progress.slots, After(st, t.events), owners')
  {
    owners' := owners;
    match e
    case Retry(attempt, maxAttempts, delay, kind) =>
      QuietAgrees(p.slots, st, owners, ProtocolEvent.Retry(attempt, maxAttempts, delay, kind));
    case Established(requestId) => QuietAgrees(p.slots, st, owners, ResponseMetadata(requestId, None));
    case Eof =>
    case Failed(_, _) =>
    case Event(sse) =>
      if sse.data != TERMINATOR && wire.read(sse.data).Chunk? && wire.read(sse.data).choice.Some? {
        owners' := ChoiceAgrees(wire, p.slots, st, owners, wire.read(sse.data).choice.value);
      }
  }

  lemma {:induction false} FailureIsOrderly(st: State, events: seq<ProtocolEvent>)
    requires Placed(st) && |events| == 1 && events[0].Failure?
    ensures Orderly(st, events) && !Accepted(st, events)
  {
    assert events[1..] == [];
  }

  // All that is read: in order throughout, and in agreement where the finish begins.
  lemma {:induction false} ReceiveAgrees(wire: Wire, p: Progress, st: State, owners: seq<Owner>,
                                         input: seq<Executor.ExecutorEvent>)
    returns (owners': seq<Owner>)
    requires Agrees(p.slots, st, owners)
    ensures var r := Receive(wire, p, input);
            match r.ended
            case None => Orderly(st, r.events) && !Accepted(st, r.events)
            case Some(q) => Accepted(st, r.events) && Agrees(q.slots, After(st, r.events), owners')
    decreases |input|
  {
    owners' := owners;
    if input != [] {
      var t := Take(wire, p, input[0]);
      owners' := TakeAgrees(wire, p, st, owners, input[0]);
      if t.flow.Return? {
        FailureIsOrderly(st, t.events);
      } else if t.flow.Onward? {
        var rest := Receive(wire, t.progress, input[1..]);
        owners' := ReceiveAgrees(wire, t.progress, After(st, t.events), owners', input[1..]);
        AfterAppend(st, t.events, rest.events);
        OrderlyAppend(st, t.events, rest.events);
        AcceptedIsOrderly(st, t.events);
      }
    }
  }

  // ---------------------------------------------------------------- closing

  // What ending blocks has done: those in `done` are ended, their text is as it was.
  ghost predicate ClosesNow(s: Slots, st: State, owners: seq<Owner>, done: set<nat>) {
    Laid(st, owners, done) && Held(s, owners) && SameArguments(s, st)
  }

  // The same, looked into only where a proof asks for it.
  ghost predicate Closes(s: Slots, st: State, owners: seq<Owner>, done: set<nat>) {
    Placed(st) && forall k {:trigger Asked(k)} :: Asked(k) ==> ClosesNow(s, st, owners, done)
  }

  lemma {:induction false} EndCloses(s: Slots, st: State, owners: seq<Owner>, done: set<nat>, e: ProtocolEvent,
                                     owner: Owner)
    requires Closes(s, st, owners, done) && IsEnd(e) && SlotOf(s, owner) == Some(e.id) && e.id !in done
    requires KindOfEvent(e) == OwnerKind(owner)
    ensures Closes(s, After(st, [e]), owners, done + {e.id}) && Orderly(st, [e])
    ensures Accepted(st, [e]) <==> !(owner.ForTool? && PartialJson.Parse(s.tools[owner.k].arguments).Invalid?)
  {
    assert Asked(0);
    EndStep(st, e);
    StepBijective(st, e);
    AfterOne(st, e);
    var st' := Step(st, e).state;
    assert Laid(st', owners, done + {e.id});
    forall k | 0 <= k < |s.tools| && s.tools[k].block.Some?
      ensures s.tools[k].block.value in st'.blocks && BodyAt(st', s.tools[k].block.value) == s.tools[k].arguments
    {
    }
    assert owner.ForTool? ==> s.tools[owner.k].block == Some(e.id);
    assert Orderly(st, [e]) by {
      assert [e][1..] == [];
    }
  }

  lemma {:induction false} DetailsClose(wire: Wire, s: Slots, st: State, owners: seq<Owner>)
    requires Closes(s, st, owners, {}) && s.details.Some?
    ensures var events := [ThinkingSignature(s.details.value, wire.write(s.reasoning)),
                           ProtocolEvent.ThinkingEnd(s.details.value)];
            Accepted(st, events) && Closes(s, After(st, events), owners, {s.details.value})
  {
    var sign := ThinkingSignature(s.details.value, wire.write(s.reasoning));
    var end := ProtocolEvent.ThinkingEnd(s.details.value);
    assert Asked(0);
    assert SlotOf(s, ForDetails) == s.details;
    SignatureStep(st, sign);
    StepBijective(st, sign);
    AfterOne(st, sign);
    var st' := Step(st, sign).state;
    assert ClosesNow(s, st', owners, {});
    EndCloses(s, st', owners, {}, end, ForDetails);
    AfterAppend(st, [sign], [end]);
    assert [sign] + [end] == [sign, end];
    assert {} + {s.details.value} == {s.details.value};
  }

  function Just(id: Option<nat>): set<nat> {
    if id.Some? then {id.value} else {}
  }

  function ToolIds(s: Slots, n: nat): set<nat>
    requires n <= |s.tools|
  {
    if n == 0 then {} else ToolIds(s, n - 1) + Just(s.tools[n - 1].block)
  }

  lemma {:induction false} ToolIdsAre(s: Slots, n: nat, id: nat)
    requires n <= |s.tools|
    ensures id in ToolIds(s, n) <==> exists k :: 0 <= k < n && s.tools[k].block == Some(id)
    decreases n
  {
    if n > 0 {
      ToolIdsAre(s, n - 1, id);
    }
  }

  // The arguments of every started tool call can at least be repaired.
  ghost predicate Repairable(s: Slots, n: nat)
    requires n <= |s.tools|
  {
    forall k :: 0 <= k < n && s.tools[k].block.Some? ==> !PartialJson.Parse(s.tools[k].arguments).Invalid?
  }

  ghost predicate NoTools(owners: seq<Owner>, done: set<nat>) {
    forall id :: id in done ==> id < |owners| && !owners[id].ForTool?
  }

  function EndOfTool(tool: ToolAccum): seq<ProtocolEvent> {
    if tool.block.Some? then [ProtocolEvent.ToolCallEnd(tool.block.value)] else []
  }

  lemma {:induction false} ToolCloses(s: Slots, st: State, owners: seq<Owner>, done: set<nat>, k: nat)
    requires k < |s.tools| && NoTools(owners, done) && Closes(s, st, owners, done + ToolIds(s, k))
    ensures var events := EndOfTool(s.tools[k]);
            && Orderly(st, events) && Closes(s, After(st, events), owners, done + ToolIds(s, k + 1))
            && (Accepted(st, events) <==>
                (s.tools[k].block.Some? ==> !PartialJson.Parse(s.tools[k].arguments).Invalid?))
  {
    var tool := s.tools[k];
    if tool.block.Some? {
      assert Asked(0);
      NotEndedYet(s, owners, done, k);
      EndCloses(s, st, owners, done + ToolIds(s, k), EndOfTool(tool)[0], ForTool(k));
    }
    assert done + ToolIds(s, k + 1) == (done + ToolIds(s, k)) + Just(tool.block);
    assert (done + ToolIds(s, k)) + {} == done + ToolIds(s, k);
  }

  lemma {:induction false} ToolsClose(s: Slots, st: State, owners: seq<Owner>, done: set<nat>, n: nat)
    requires Closes(s, st, owners, done) && n <= |s.tools| && NoTools(owners, done)
    ensures var events := CloseTools(s.tools[..n]);
            && Orderly(st, events) && (Accepted(st, events) <==> Repairable(s, n))
            && Closes(s, After(st, events), owners, done + ToolIds(s, n))
    decreases n
  {
    if n == 0 {
      assert done + {} == done;
    } else {
      ToolsClose(s, st, owners, done, n - 1);
      var before, last := CloseTools(s.tools[..n - 1]), EndOfTool(s.tools[n - 1]);
      assert CloseTools(s.tools[..n]) == before + last by {
        assert s.tools[..n][..n - 1] == s.tools[..n - 1];
      }
      ToolCloses(s, After(st, before), owners, done, n - 1);
      AfterAppend(st, before, last);
      OrderlyAppend(st, before, last);
    }
  }

  lemma {:induction false} NotEndedYet(s: Slots, owners: seq<Owner>, done: set<nat>, k: nat)
    requires Held(s, owners) && k < |s.tools| && s.tools[k].block.Some?
    requires forall id :: id in done ==> id < |owners| && !owners[id].ForTool?
    ensures s.tools[k].block.value !in done + ToolIds(s, k)
  {
    var id := s.tools[k].block.value;
    assert SlotOf(s, ForTool(k)) == Some(id);
    ToolIdsAre(s, k, id);
    forall j | 0 <= j < k
      ensures s.tools[j].block != Some(id)
    {
      assert SlotOf(s, ForTool(j)) == s.tools[j].block;
    }
  }

  // Closing one block, if it was opened, that is no tool call.
  lemma {:induction false} OneCloses(s: Slots, st: State, owners: seq<Owner>, done: set<nat>, owner: Owner,
                                     events: seq<ProtocolEvent>)
    requires Closes(s, st, owners, done) && !owner.ForTool? && NoTools(owners, done)
    requires if SlotOf(s, owner).None? then events == []
             else |events| == 1 && IsEnd(events[0]) && KindOfEvent(events[0]) == OwnerKind(owner) &&
                  events[0].id == SlotOf(s, owner).value
    requires forall id :: id in done ==> owners[id] != owner
    ensures Accepted(st, events) && Closes(s, After(st, events), owners, done + Just(SlotOf(s, owner)))
  {
    if SlotOf(s, owner).Some? {
      assert Asked(0);
      EndCloses(s, st, owners, done, events[0], owner);
      assert events == [events[0]];
    } else {
      assert done + {} == done;
    }
  }

  function CloseDetails(wire: Wire, s: Slots): seq<ProtocolEvent> {
    if s.details.Some? then [ThinkingSignature(s.details.value, wire.write(s.reasoning)),
                             ProtocolEvent.ThinkingEnd(s.details.value)] else []
  }

  function CloseThinking(s: Slots): seq<ProtocolEvent> {
    if s.thinking.Some? then [ProtocolEvent.ThinkingEnd(s.thinking.value)] else []
  }

  function CloseText(s: Slots): seq<ProtocolEvent> {
    if s.text.Some? then [ProtocolEvent.TextEnd(s.text.value)] else []
  }

  function PlainIds(s: Slots): set<nat> {
    Just(s.details) + Just(s.thinking) + Just(s.text)
  }

  lemma {:induction false} OwnersOf(s: Slots, st: State, owners: seq<Owner>)
    requires Closes(s, st, owners, {})
    ensures s.details.Some? ==> s.details.value < |owners| && owners[s.details.value] == ForDetails
    ensures s.thinking.Some? ==> s.thinking.value < |owners| && owners[s.thinking.value] == ForThinking
    ensures s.text.Some? ==> s.text.value < |owners| && owners[s.text.value] == ForText
  {
    assert Asked(0);
    assert SlotOf(s, ForDetails) == s.details && SlotOf(s, ForThinking) == s.thinking && SlotOf(s, ForText) == s.text;
  }

  // The blocks that are no tool calls close without fail.
  lemma {:induction false} PlainClose(wire: Wire, s: Slots, st: State, owners: seq<Owner>)
    requires Closes(s, st, owners, {})
    ensures var events := CloseDetails(wire, s) + CloseThinking(s) + CloseText(s);
            Accepted(st, events) && Closes(s, After(st, events), owners, PlainIds(s)) && NoTools(owners, PlainIds(s))
  {
    var details, thinking, text := CloseDetails(wire, s), CloseThinking(s), CloseText(s);
    OwnersOf(s, st, owners);
    if s.details.Some? {
      DetailsClose(wire, s, st, owners);
    }
    var st1 := After(st, details);
    OneCloses(s, st1, owners, Just(s.details), ForThinking, thinking);
    var st2 := After(st1, thinking);
    OneCloses(s, st2, owners, Just(s.details) + Just(s.thinking), ForText, text);
    AfterAppend(st, details, thinking);
    AfterAppend(st, details + thinking, text);
  }

  lemma {:induction false} ClosingCloses(wire: Wire, s: Slots, st: State, owners: seq<Owner>)
    requires Closes(s, st, owners, {})
    ensures var events := Closing(wire, s);
            && Orderly(st, events) && (Accepted(st, events) <==> Repairable(s, |s.tools|))
            && AllEnded(After(st, events))
  {
    var plain, tools := CloseDetails(wire, s) + CloseThinking(s) + CloseText(s), CloseTools(s.tools);
    PlainClose(wire, s, st, owners);
    ToolsClose(s, After(st, plain), owners, PlainIds(s), |s.tools|);
    assert s.tools[..|s.tools|] == s.tools;
    AcceptedIsOrderly(st, plain);
    AfterAppend(st, plain, tools);
    OrderlyAppend(st, plain, tools);
    EveryIdDone(s, owners, After(st, plain + tools));
    assert Closing(wire, s) == plain + tools;
  }

  lemma {:induction false} EveryIdDone(s: Slots, owners: seq<Owner>, st: State)
    requires Closes(s, st, owners, PlainIds(s) + ToolIds(s, |s.tools|))
    ensures AllEnded(st)
  {
    assert Asked(0);
    forall id | id in st.blocks
      ensures st.blocks[id].ended
    {
      assert SlotOf(s, owners[id]) == Some(id);
      ToolIdsAre(s, |s.tools|, id);
    }
  }

  // ---------------------------------------------------------------- the theorems

  lemma {:induction false} FinishCloses(wire: Wire, p: Progress, st: State, owners: seq<Owner>)
    requires Agrees(p.slots, st, owners)
    ensures var events := Finish(wire, p);
            && Orderly(st, events)
            && (Accepted(st, events) <==> Completes(wire, p) && Repairable(p.slots, |p.slots.tools|))
            && (Completes(wire, p) ==> AllEnded(After(st, events)))
  {
    if !Completes(wire, p) {
      FailureIsOrderly(st, Finish(wire, p));
    } else {
      var closing, stop := Closing(wire, p.slots), [UsageReport(p.usage), StopEvent(FinalReason(p), p.raw)];
      ClosingCloses(wire, p.slots, st, owners);
      ReportAndStop(After(st, closing), p.usage, FinalReason(p), p.raw);
      AfterAppend(st, closing, stop);
      OrderlyAppend(st, closing, stop);
    }
  }

  lemma {:induction false} StartsInAgreement(message: AssistantMessage)
    requires message.content == []
    ensures Agrees(NO_SLOTS, Initial(message), [])
  {
  }

  // For every stream of chunks: nothing the adapter yields breaks the order of blocks, and
  // the assembler accepts all of it exactly when the response completed and the arguments
  // of every tool call can at least be repaired.
  lemma {:induction false} StreamIsOrderly(wire: Wire, message: AssistantMessage, input: seq<Executor.ExecutorEvent>)
    requires message.content == []
    ensures var out, ended := Streamed(wire, input), Receive(wire, NOTHING_YET, input).ended;
            && Orderly(Initial(message), out)
            && (Accepted(Initial(message), out) <==>
                 ended.Some? && Completes(wire, ended.value) &&
                 Repairable(ended.value.slots, |ended.value.slots.tools|))
            && (Accepted(Initial(message), out) ==> AllEnded(After(Initial(message), out)))
  {
    StartsInAgreement(message);
    var r, st := Receive(wire, NOTHING_YET, input), Initial(message);
    var owners := ReceiveAgrees(wire, NOTHING_YET, st, [], input);
    if r.ended.Some? {
      FinishCloses(wire, r.ended.value, After(st, r.events), owners);
      AfterAppend(st, r.events, Finish(wire, r.ended.value));
      OrderlyAppend(st, r.events, Finish(wire, r.ended.value));
      AcceptedIsOrderly(st, r.events);
    } else {
      assert Streamed(wire, input) == r.events;
    }
  }

  // A run that ends in `Done` has started every block once and ended it once, as one kind.
  lemma {:induction false} DoneEndsEveryBlock(wire: Wire, message: AssistantMessage, input: seq<Executor.ExecutorEvent>)
    requires message.content == []
    ensures var out := Streamed(wire, input);
            var trace := Driver.Loop(Initial(message), None, Nexts(out));
            trace != [] && (Last(trace).Done? ==> OnceEach(out))
  {
    var out := Streamed(wire, input);
    DoneMeansAccepted(Initial(message), None, out);
    StreamIsOrderly(wire, message, input);
    if Accepted(Initial(message), out) {
      EndedOnceEach(message, out);
    }
  }

  // ---------------------------------------------------------------- the stop

  // A raw reason has been mapped and counts as a formal stop; without one the reason is
  // the default.
  predicate Mapped(p: Progress) {
    if p.raw.Some? then p.formal && p.reason == MapStopReason(p.raw.value) else p.reason == StopReason.Stop
  }

  lemma {:induction false} ReceiveMapped(wire: Wire, p: Progress, input: seq<Executor.ExecutorEvent>)
    requires Mapped(p)
    ensures var ended := Receive(wire, p, input).ended; ended.Some? ==> Mapped(ended.value)
    decreases |input|
  {
    if input != [] {
      var t := Take(wire, p, input[0]);
      assert Mapped(t.progress);
      if t.flow.Onward? {
        ReceiveMapped(wire, t.progress, input[1..]);
      }
    }
  }

  // Every completed response stops last, with the wire's own reason and its mapping; a
  // stop without one is a plain stop, or a tool use inferred from a started call.
  lemma {:induction false} StopIsTheWires(wire: Wire, input: seq<Executor.ExecutorEvent>)
    requires var ended := Receive(wire, NOTHING_YET, input).ended; ended.Some? && Completes(wire, ended.value)
    ensures var p, out := Receive(wire, NOTHING_YET, input).ended.value, Streamed(wire, input);
            && |out| >= 2 && out[|out| - 2] == UsageReport(p.usage)
            && match p.raw
               case Some(raw) => out[|out| - 1] == StopWithRaw(MapStopReason(raw), raw)
               case None =>
                 out[|out| - 1] == ProtocolEvent.Stop(if !p.formal && StartedTool(p.slots) then StopReason.ToolUse
                                                      else StopReason.Stop)
  {
    ReceiveMapped(wire, NOTHING_YET, input);
    var r := Receive(wire, NOTHING_YET, input);
    var finish := Finish(wire, r.ended.value);
    assert Streamed(wire, input)[|r.events|..] == finish;
  }
}
