// What the wire itself must be like for the assembler to accept an Anthropic stream.
module AnthropicWire {
  import opened Prelude
  import opened Messages
  import opened Adapters
  import opened Assembler
  import opened AssemblerTheorems
  import opened ProtocolRuns
  import opened AnthropicAdapter
  import opened AnthropicTheorems
  import Executor
  import PartialJson

  // The fragments received so far, by index.
  type Texts = map<nat, string>

  predicate IsOpen(slots: Slots, index: nat) {
    index < |slots| && slots[index].Some? && !slots[index].value.ended
  }

  // The kind of block a fragment belongs to, if it is passed on at all.
  function PieceKind(piece: Piece): Option<BlockKind> {
    match piece
    case TextPiece(text) => if text == "" then None else Some(TextBlock)
    case ThinkingPiece(thinking) => if thinking == "" then None else Some(ThinkingBlock)
    case SignaturePiece(_) => Some(ThinkingBlock)
    case JsonPiece(_) => Some(ToolBlock)
    case OtherPiece => None
  }

  function PieceText(piece: Piece): string {
    match piece
    case TextPiece(text) => text
    case ThinkingPiece(thinking) => thinking
    case JsonPiece(fragment) => fragment
    case _ => ""
  }

  // The fragment a block start carries.
  function FirstText(o: Opening, text: Option<string>, thinking: Option<string>): string {
    match OpeningKind(o)
    case TextBlock => text.GetOr("")
    case ThinkingBlock => thinking.GetOr("")
    case ToolBlock => ""
  }

  predicate Repairs(text: string) {
    !PartialJson.Parse(text).Invalid?
  }

  // No start reuses an index; a fragment's index is open and of its kind; a call that its
  // own stop ends has arguments that can be repaired.
  predicate Fits(slots: Slots, texts: Texts, payload: Payload) {
    match payload
    case Malformed => false
    case ErrorReport(_) => false
    case BlockStart(index, _, _, _) => !(index < |slots| && slots[index].Some?)
    case BlockDelta(index, piece) =>
      PieceKind(piece).Some? ==> IsOpen(slots, index) && slots[index].value.kind == PieceKind(piece).value
    case BlockStop(index) =>
      IsOpen(slots, index) && slots[index].value.kind.ToolBlock? && index in texts ==> Repairs(texts[index])
    case _ => true
  }

  function Heard(texts: Texts, payload: Payload): Texts {
    match payload
    case BlockStart(index, o, text, thinking) => texts[index := FirstText(o, text, thinking)]
    case BlockDelta(index, piece) => if index in texts then texts[index := texts[index] + PieceText(piece)] else texts
    case _ => texts
  }

  // Every event up to the end of reading fits what came before it.
  predicate WellFormed(wire: Wire, p: Progress, texts: Texts, input: seq<Executor.ExecutorEvent>)
    decreases |input|
  {
    if input == [] || input[0].Eof? then true
    else if input[0].Failed? then false
    else if !input[0].Event? then WellFormed(wire, p, texts, input[1..])
    else
      var payload := wire.read(input[0].sse);
      && Fits(p.slots, texts, payload)
      && (payload.MessageStop? || WellFormed(wire, TakePayload(p, payload).progress, Heard(texts, payload), input[1..]))
  }

  // All fragments received by the end of reading.
  function AllHeard(wire: Wire, p: Progress, texts: Texts, input: seq<Executor.ExecutorEvent>): Texts
    decreases |input|
  {
    if input == [] || input[0].Eof? || input[0].Failed? then texts
    else if !input[0].Event? then AllHeard(wire, p, texts, input[1..])
    else
      var payload := wire.read(input[0].sse);
      if payload.MessageStop? then texts
      else AllHeard(wire, TakePayload(p, payload).progress, Heard(texts, payload), input[1..])
  }

  // ---------------------------------------------------------------- one payload

  // The assembler holds exactly the fragments received.
  ghost predicate Holds(texts: Texts, st: State)
    requires Placed(st)
  {
    && texts.Keys == st.blocks.Keys
    && forall id :: id in st.blocks ==> BodyAt(st, id) == texts[id]
  }

  // The assembler's blocks are the adapter's, and it holds exactly the fragments received.
  ghost predicate Agrees(slots: Slots, texts: Texts, st: State) {
    Placed(st) && forall k {:trigger Asked(k)} :: Asked(k) ==> Tracks(slots, st) && Holds(texts, st)
  }

  lemma {:induction false} Agreed(slots: Slots, texts: Texts, st: State)
    requires Agrees(slots, texts, st)
    ensures Tracks(slots, st) && Holds(texts, st)
  {
    assert Asked(0);
  }

  // What a payload leaves where it fits.
  ghost predicate Keeps(p: Progress, texts: Texts, st: State, payload: Payload)
    requires Placed(st)
  {
    var t := TakePayload(p, payload);
    Agrees(t.progress.slots, Heard(texts, payload), After(st, t.events))
  }

  lemma {:induction false} StartFits(p: Progress, texts: Texts, st: State, payload: Payload)
    requires Agrees(p.slots, texts, st) && payload.BlockStart?
    ensures Accepted(st, TakePayload(p, payload).events) <==> Fits(p.slots, texts, payload)
    ensures Fits(p.slots, texts, payload) ==> Keeps(p, texts, st, payload)
  {
    var index, o := payload.begun, payload.opening;
    var start, first := StartEvent(o, index), FirstPieces(OpeningKind(o), index, payload.firstText,
                                                          payload.firstThinking);
    AfterAppend(st, [start], first);
    StartIsNew(p.slots, texts, st, index);
    if index in st.blocks {
      StartReused(st, start);
    } else {
      NewStartFits(p.slots, texts, st, start);
      OpenedFits(Opened(p, index, o, payload.firstText, payload.firstThinking).progress.slots, texts,
                 After(st, [start]), payload, first);
    }
  }

  lemma {:induction false} StartIsNew(slots: Slots, texts: Texts, st: State, index: nat)
    requires Agrees(slots, texts, st)
    ensures index in st.blocks <==> index < |slots| && slots[index].Some?
  {
    Agreed(slots, texts, st);
  }

  lemma {:induction false} OpenedFits(slots: Slots, texts: Texts, st: State, payload: Payload,
                                      first: seq<ProtocolEvent>)
    requires payload.BlockStart? && Agrees(slots, texts[payload.begun := ""], st)
    requires payload.begun < |slots| && slots[payload.begun] == Some(WireBlock(OpeningKind(payload.opening), false))
    requires first == FirstPieces(OpeningKind(payload.opening), payload.begun, payload.firstText, payload.firstThinking)
    ensures Accepted(st, first) && Agrees(slots, Heard(texts, payload), After(st, first))
  {
    Agreed(slots, texts[payload.begun := ""], st);
    FirstFits(slots, texts[payload.begun := ""], st, payload.begun, first);
    HeardFirst(texts, payload, first);
  }

  lemma {:induction false} StartReused(st: State, start: ProtocolEvent)
    requires Placed(st) && IsStart(start) && start.id in st.blocks
    ensures !Accepted(st, [start])
  {
    AfterOne(st, start);
    if !Rejects(st, start) {
      AcceptedStartIsNew(st, start);
    }
  }

  lemma {:induction false} NewStartFits(slots: Slots, texts: Texts, st: State, start: ProtocolEvent)
    requires Agrees(slots, texts, st) && IsStart(start) && start.id !in st.blocks
    ensures Accepted(st, [start])
    ensures Agrees(Resized(slots, start.id)[start.id := Some(WireBlock(KindOfEvent(start), false))],
                   texts[start.id := ""], After(st, [start]))
  {
    Agreed(slots, texts, st);
    StartHeld(texts, st, start);
    StartTracks(slots, st, start);
  }

  lemma {:induction false} StartHeld(texts: Texts, st: State, start: ProtocolEvent)
    requires Bijective(st) && !st.stopped && Holds(texts, st) && IsStart(start) && start.id !in st.blocks
    ensures !Rejects(st, start) && Accepted(st, [start]) && Holds(texts[start.id := ""], After(st, [start]))
  {
    AfterOne(st, start);
    StartStep(st, start);
    StillHeld(texts, texts[start.id := ""], st, After(st, [start]), start.id);
  }

  lemma {:induction false} StillHeld(texts: Texts, texts': Texts, st: State, st': State, id: nat)
    requires Placed(st) && Placed(st') && Holds(texts, st) && OthersKept(st, st', id)
    requires st'.blocks.Keys == st.blocks.Keys + {id} && id in texts' && BodyAt(st', id) == texts'[id]
    requires texts' == texts[id := texts'[id]]
    ensures Holds(texts', st')
  {
    forall x | x in st'.blocks
      ensures BodyAt(st', x) == texts'[x]
    {
      if x != id {
        assert BodyAt(st', x) == BodyAt(st, x);
      }
    }
  }

  lemma {:induction false} HeardFirst(texts: Texts, payload: Payload, first: seq<ProtocolEvent>)
    requires payload.BlockStart?
    requires first == FirstPieces(OpeningKind(payload.opening), payload.begun, payload.firstText, payload.firstThinking)
    ensures var index, blank := payload.begun, texts[payload.begun := ""];
            Heard(texts, payload) == blank[index := blank[index] + if first == [] then "" else first[0].delta]
  {
    var text := if first == [] then "" else first[0].delta;
    assert "" + text == text;
  }

  // The fragment a start carries is accepted, and appended.
  lemma {:induction false} FirstFits(slots: Slots, texts: Texts, st: State, index: nat, first: seq<ProtocolEvent>)
    requires Tracks(slots, st) && Holds(texts, st) && IsOpen(slots, index)
    requires |first| <= 1 && (first != [] ==>
                              IsPiece(first[0]) && first[0].id == index &&
                              KindOfEvent(first[0]) == slots[index].value.kind)
    ensures Accepted(st, first) && Tracks(slots, After(st, first))
    ensures index in texts && Holds(texts[index := texts[index] + if first == [] then "" else first[0].delta],
                                    After(st, first))
  {
    if first == [] {
      assert texts[index] + "" == texts[index];
      assert texts[index := texts[index]] == texts;
    } else {
      AfterOne(st, first[0]);
      PieceStep(st, first[0]);
      PieceTracks(slots, st, first[0]);
      assert first == [first[0]];
    }
  }

  lemma {:induction false} DeltaFits(p: Progress, texts: Texts, st: State, payload: Payload)
    requires Agrees(p.slots, texts, st) && payload.BlockDelta?
    ensures Accepted(st, TakePayload(p, payload).events) <==> Fits(p.slots, texts, payload)
    ensures Fits(p.slots, texts, payload) ==> Keeps(p, texts, st, payload)
  {
    Agreed(p.slots, texts, st);
    var events := PieceEvents(payload.extended, payload.piece);
    if events == [] {
      assert PieceText(payload.piece) == "";
      if payload.extended in texts {
        assert texts[payload.extended] + "" == texts[payload.extended];
        assert Heard(texts, payload) == texts;
      }
    } else {
      var e := events[0];
      assert events == [e];
      AfterOne(st, e);
      PieceTracks(p.slots, st, e);
      if e.ThinkingSignature? {
        SignatureFits(p, texts, st, payload, e);
      } else {
        PieceFits(p, texts, st, payload, e);
      }
    }
  }

  lemma {:induction false} PieceFits(p: Progress, texts: Texts, st: State, payload: Payload, e: ProtocolEvent)
    requires Tracks(p.slots, st) && Holds(texts, st) && payload.BlockDelta? && IsPiece(e) &&
             PieceEvents(payload.extended, payload.piece) == [e]
    ensures Rejects(st, e) <==> !Fits(p.slots, texts, payload)
    ensures !Rejects(st, e) ==> Holds(Heard(texts, payload), Step(st, e).state)
  {
    assert e.id == payload.extended && Some(KindOfEvent(e)) == PieceKind(payload.piece) &&
           e.delta == PieceText(payload.piece);
    PieceRejects(st, e);
    if !Rejects(st, e) {
      PieceStep(st, e);
    }
  }

  lemma {:induction false} SignatureFits(p: Progress, texts: Texts, st: State, payload: Payload, e: ProtocolEvent)
    requires Tracks(p.slots, st) && Holds(texts, st) && payload.BlockDelta? && payload.piece.SignaturePiece?
    requires e == ThinkingSignature(payload.extended, payload.piece.sign)
    ensures Rejects(st, e) <==> !Fits(p.slots, texts, payload)
    ensures !Rejects(st, e) ==> Holds(Heard(texts, payload), Step(st, e).state)
  {
    SignatureRejects(st, e);
    if !Rejects(st, e) {
      SignatureStep(st, e);
      assert texts[e.id] + "" == texts[e.id];
      assert Heard(texts, payload) == texts;
    }
  }

  lemma {:induction false} StopFits(p: Progress, texts: Texts, st: State, payload: Payload)
    requires Agrees(p.slots, texts, st) && payload.BlockStop?
    ensures Accepted(st, TakePayload(p, payload).events) <==> Fits(p.slots, texts, payload)
    ensures Fits(p.slots, texts, payload) ==> Keeps(p, texts, st, payload)
  {
    if IsOpen(p.slots, payload.closed) {
      EndFits(p.slots, texts, st, payload.closed);
    }
  }

  lemma {:induction false} EndFits(slots: Slots, texts: Texts, st: State, index: nat)
    requires Agrees(slots, texts, st) && IsOpen(slots, index)
    ensures var e := EndEvent(slots[index].value.kind, index);
            && Agrees(Marked(slots, index), texts, After(st, [e])) && index in texts
            && (Accepted(st, [e]) <==> (slots[index].value.kind.ToolBlock? ==> Repairs(texts[index])))
  {
    Agreed(slots, texts, st);
    EndTracks(slots, st, index);
    EndHeld(texts, st, EndEvent(slots[index].value.kind, index));
  }

  lemma {:induction false} EndHeld(texts: Texts, st: State, e: ProtocolEvent)
    requires Bijective(st) && !st.stopped && Holds(texts, st)
    requires IsEnd(e) && Lookup(st.blocks, e.id, KindOfEvent(e)).Ok?
    ensures Holds(texts, After(st, [e]))
  {
    AfterOne(st, e);
    EndStep(st, e);
    StillHeld(texts, texts, st, After(st, [e]), e.id);
  }

  lemma {:induction false} PayloadFits(p: Progress, texts: Texts, st: State, payload: Payload)
    requires Agrees(p.slots, texts, st)
    ensures Accepted(st, TakePayload(p, payload).events) <==> Fits(p.slots, texts, payload)
    ensures Fits(p.slots, texts, payload) ==> Keeps(p, texts, st, payload)
  {
    match payload
    case BlockStart(_, _, _, _) => StartFits(p, texts, st, payload);
    case BlockDelta(_, _) => DeltaFits(p, texts, st, payload);
    case BlockStop(_) => StopFits(p, texts, st, payload);
    case Malformed => AfterOne(st, TakePayload(p, payload).events[0]);
    case ErrorReport(_) => AfterOne(st, TakePayload(p, payload).events[0]);
    case _ =>
  }

  // ---------------------------------------------------------------- the whole stream

  lemma {:induction false} QuietFits(slots: Slots, texts: Texts, st: State, e: ProtocolEvent)
    requires Agrees(slots, texts, st) && (e.Retry? || e.ResponseMetadata?)
    ensures Accepted(st, [e]) && Agrees(slots, texts, After(st, [e]))
  {
    Agreed(slots, texts, st);
    AfterOne(st, e);
    PieceTracks(slots, st, e);
  }

  // What is read is accepted exactly when the wire is well formed, and the assembler then
  // holds all that was heard.
  lemma {:induction false} ReceiveFits(wire: Wire, p: Progress, texts: Texts, st: State,
                                       input: seq<Executor.ExecutorEvent>)
    requires Agrees(p.slots, texts, st)
    ensures var r := Receive(wire, p, input);
            && (Accepted(st, r.events) <==> WellFormed(wire, p, texts, input))
            && (Accepted(st, r.events) && r.ended.Some? ==>
                  Agrees(r.ended.value.slots, AllHeard(wire, p, texts, input), After(st, r.events)))
    decreases |input|
  {
    if input != [] {
      var t := Take(wire, p, input[0]);
      match input[0]
      case Event(sse) =>
        var payload := wire.read(sse);
        PayloadFits(p, texts, st, payload);
        if t.flow.Onward? {
          AfterAppend(st, t.events, Receive(wire, t.progress, input[1..]).events);
          if Fits(p.slots, texts, payload) {
            ReceiveFits(wire, t.progress, Heard(texts, payload), After(st, t.events), input[1..]);
          }
        }
      case Eof =>
      case Failed(_, _) => AfterOne(st, t.events[0]);
      case _ =>
        QuietFits(p.slots, texts, st, t.events[0]);
        assert t.events == [t.events[0]];
        AfterAppend(st, t.events, Receive(wire, t.progress, input[1..]).events);
        ReceiveFits(wire, p, texts, After(st, t.events), input[1..]);
    }
  }

  // The calls the wire left open have arguments that can be repaired.
  predicate OpenCallsRepair(slots: Slots, texts: Texts) {
    forall k :: 0 <= k < |slots| && IsOpen(slots, k) && slots[k].value.kind.ToolBlock? && k in texts ==>
      Repairs(texts[k])
  }

  // The assembler accepts the whole stream if and only if `message_stop` came, no start
  // reused an index, every fragment's index was open and of its kind, and the arguments of
  // every call, ended by its own stop or by the adapter, can be repaired.
  lemma {:induction false} AcceptedExactly(wire: Wire, message: AssistantMessage, input: seq<Executor.ExecutorEvent>)
    requires message.content == []
    ensures var ended := Receive(wire, NOTHING_YET, input).ended;
            Accepted(Initial(message), Streamed(wire, input)) <==>
              && WellFormed(wire, NOTHING_YET, map[], input) && ended.Some? && ended.value.sawStop
              && OpenCallsRepair(ended.value.slots, AllHeard(wire, NOTHING_YET, map[], input))
  {
    var st, r := Initial(message), Receive(wire, NOTHING_YET, input);
    AcceptedAsRead(wire, message, input);
    ReceiveFits(wire, NOTHING_YET, map[], st, input);
    if Accepted(st, r.events) {
      SameRepairs(r.ended.value.slots, AllHeard(wire, NOTHING_YET, map[], input), After(st, r.events));
    }
  }

  lemma {:induction false} SameRepairs(slots: Slots, texts: Texts, st: State)
    requires Agrees(slots, texts, st)
    ensures Repairable(slots, st, |slots|) <==> OpenCallsRepair(slots, texts)
  {
    Agreed(slots, texts, st);
    forall k | 0 <= k < |slots|
      ensures RepairableAt(slots, st, k) <==>
              (IsOpen(slots, k) && slots[k].value.kind.ToolBlock? && k in texts ==> Repairs(texts[k]))
    {
    }
  }
}
