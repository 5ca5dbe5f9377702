// Every block an accepted Anthropic stream opens is closed exactly once, whatever stops
// the wire omits, repeats or misnumbers.
module AnthropicTheorems {
  import opened Prelude
  import opened Messages
  import opened Adapters
  import opened Assembler
  import opened AssemblerTheorems
  import opened ProtocolRuns
  import opened AnthropicAdapter
  import Driver
  import Executor
  import PartialJson

  // The adapter's slots and the assembler's blocks are the same.
  ghost predicate Tracks(slots: Slots, st: State) {
    && Bijective(st) && !st.stopped
    && (forall id: nat :: id in st.blocks <==> id < |slots| && slots[id].Some?)
    && forall id :: id in st.blocks ==> slots[id] == Some(WireBlock(st.blocks[id].kind, st.blocks[id].ended))
  }

  // ---------------------------------------------------------------- one payload

  lemma {:induction false} PieceTracks(slots: Slots, st: State, e: ProtocolEvent)
    requires Tracks(slots, st) && (IsPiece(e) || e.ThinkingSignature? || e.Retry? || e.ResponseMetadata?)
    ensures Tracks(slots, After(st, [e]))
  {
    AfterOne(st, e);
    StepBijective(st, e);
    assert Step(st, e).state.blocks == st.blocks && !Step(st, e).state.stopped;
  }

  lemma {:induction false} StartTracks(slots: Slots, st: State, e: ProtocolEvent)
    requires Tracks(slots, st) && IsStart(e) && !Rejects(st, e)
    ensures Tracks(Resized(slots, e.id)[e.id := Some(WireBlock(KindOfEvent(e), false))], After(st, [e]))
  {
    AfterOne(st, e);
    AcceptedStartIsNew(st, e);
    StartStep(st, e);
    StepBijective(st, e);
    NewSlotTracks(slots, st, Step(st, e).state, e.id, KindOfEvent(e));
  }

  lemma {:induction false} NewSlotTracks(slots: Slots, st: State, st': State, id: nat, kind: BlockKind)
    requires Tracks(slots, st) && Bijective(st') && !st'.stopped && OthersKept(st, st', id)
    requires st'.blocks.Keys == st.blocks.Keys + {id} && st'.blocks[id].kind == kind && !st'.blocks[id].ended
    ensures Tracks(Resized(slots, id)[id := Some(WireBlock(kind, false))], st')
  {
  }

  lemma {:induction false} OpenedTracks(p: Progress, st: State, index: nat, o: Opening, text: Option<string>,
                                        thinking: Option<string>)
    requires Tracks(p.slots, st) && Accepted(st, Opened(p, index, o, text, thinking).events)
    ensures var t := Opened(p, index, o, text, thinking); Tracks(t.progress.slots, After(st, t.events))
  {
    var start, first := StartEvent(o, index), FirstPieces(OpeningKind(o), index, text, thinking);
    AfterAppend(st, [start], first);
    AfterOne(st, start);
    StartTracks(p.slots, st, start);
    if first != [] {
      PieceTracks(Opened(p, index, o, text, thinking).progress.slots, After(st, [start]), first[0]);
      assert first == [first[0]];
    }
  }

  function Marked(slots: Slots, index: nat): Slots
    requires index < |slots| && slots[index].Some?
  {
    slots[index := Some(slots[index].value.(ended := true))]
  }

  // A block still open is ended as its own kind, which fails only for its arguments.
  lemma {:induction false} EndTracks(slots: Slots, st: State, index: nat)
    requires Tracks(slots, st) && index < |slots| && slots[index].Some? && !slots[index].value.ended
    ensures var e := EndEvent(slots[index].value.kind, index);
            && Tracks(Marked(slots, index), After(st, [e])) && Orderly(st, [e]) && OthersKept(st, After(st, [e]), index)
            && index in st.blocks
            && (Accepted(st, [e]) <==> (slots[index].value.kind.ToolBlock? ==>
                                        !PartialJson.Parse(BodyAt(st, index)).Invalid?))
  {
    var e := EndEvent(slots[index].value.kind, index);
    assert index in st.blocks && KindOfEvent(e) == st.blocks[index].kind;
    EndStep(st, e);
    StepBijective(st, e);
    AfterOne(st, e);
    assert [e][1..] == [];
  }

  lemma {:induction false} StoppedTracks(p: Progress, st: State, index: nat)
    requires Tracks(p.slots, st)
    ensures var t := Stopped(p, index); Tracks(t.progress.slots, After(st, t.events))
  {
    if index < |p.slots| && p.slots[index].Some? && !p.slots[index].value.ended {
      EndTracks(p.slots, st, index);
    }
  }

  lemma {:induction false} TakeTracks(wire: Wire, p: Progress, st: State, e: Executor.ExecutorEvent)
    requires Tracks(p.slots, st)
    ensures var t := Take(wire, p, e);
            && (t.flow.Return? ==> !Accepted(st, t.events))
            && (!t.flow.Return? && Accepted(st, t.events) ==> Tracks(t.progress.slots, After(st, t.events)))
  {
    match e
    case Retry(attempt, maxAttempts, delay, kind) =>
      PieceTracks(p.slots, st, ProtocolEvent.Retry(attempt, maxAttempts, delay, kind));
    case Established(requestId) => PieceTracks(p.slots, st, ResponseMetadata(requestId, None));
    case Eof =>
    case Failed(kind, cause) => AfterOne(st, Take(wire, p, e).events[0]);
    case Event(sse) => PayloadTracks(p, st, wire.read(sse));
  }

  lemma {:induction false} PayloadTracks(p: Progress, st: State, payload: Payload)
    requires Tracks(p.slots, st)
    ensures var t := TakePayload(p, payload);
            && (t.flow.Return? ==> !Accepted(st, t.events))
            && (!t.flow.Return? && Accepted(st, t.events) ==> Tracks(t.progress.slots, After(st, t.events)))
  {
    match payload
    case BlockStart(index, o, text, thinking) =>
      if Accepted(st, Opened(p, index, o, text, thinking).events) {
        OpenedTracks(p, st, index, o, text, thinking);
      }
    case BlockDelta(index, piece) =>
      if PieceEvents(index, piece) != [] {
        PieceTracks(p.slots, st, PieceEvents(index, piece)[0]);
      }
    case BlockStop(index) => StoppedTracks(p, st, index);
    case Malformed => AfterOne(st, TakePayload(p, payload).events[0]);
    case ErrorReport(_) => AfterOne(st, TakePayload(p, payload).events[0]);
    case _ =>
  }

  lemma {:induction false} ReceiveTracks(wire: Wire, p: Progress, st: State, input: seq<Executor.ExecutorEvent>)
    requires Tracks(p.slots, st)
    ensures var r := Receive(wire, p, input);
            Accepted(st, r.events) ==> r.ended.Some? && Tracks(r.ended.value.slots, After(st, r.events))
    decreases |input|
  {
    if input != [] {
      var t := Take(wire, p, input[0]);
      TakeTracks(wire, p, st, input[0]);
      if t.flow.Onward? {
        AfterAppend(st, t.events, Receive(wire, t.progress, input[1..]).events);
        if Accepted(st, t.events) {
          ReceiveTracks(wire, t.progress, After(st, t.events), input[1..]);
        }
      }
    }
  }

  // ---------------------------------------------------------------- closing

  // The slots with the first `n` ended.
  function Swept(slots: Slots, n: nat): (r: Slots)
    requires n <= |slots|
    ensures |r| == |slots| && forall k :: 0 <= k < |slots| ==> (r[k].Some? <==> slots[k].Some?)
    ensures forall k :: n <= k < |slots| ==> r[k] == slots[k]
  {
    if n == 0 then slots
    else
      var before := Swept(slots, n - 1);
      if before[n - 1].Some? then Marked(before, n - 1) else before
  }

  lemma {:induction false} SweptEnds(slots: Slots, n: nat)
    requires n <= |slots|
    ensures forall k :: 0 <= k < n && slots[k].Some? ==> Swept(slots, n)[k].value.ended
    decreases n
  {
    if n > 0 {
      SweptEnds(slots, n - 1);
    }
  }

  // If slot `k` is a tool call the wire left open, its arguments can at least be repaired.
  predicate RepairableAt(slots: Slots, st: State, k: nat)
    requires Placed(st) && k < |slots|
  {
    k in st.blocks && EndOf(slots[k], k) != [] && slots[k].value.kind.ToolBlock? ==>
    !PartialJson.Parse(BodyAt(st, k)).Invalid?
  }

  ghost predicate Repairable(slots: Slots, st: State, n: nat)
    requires Placed(st) && n <= |slots|
  {
    forall k :: 0 <= k < n ==> RepairableAt(slots, st, k)
  }

  // `st'` differs from `st` only in blocks before `n`.
  ghost predicate LaterKept(st: State, st': State, n: nat)
    requires Placed(st) && Placed(st')
  {
    forall x :: x in st.blocks && n <= x ==> x in st'.blocks && BodyAt(st', x) == BodyAt(st, x)
  }

  // Where sweeping the first `n` slots has led, looked into only where a proof asks.
  ghost predicate SweptTo(slots: Slots, st: State, st': State, n: nat)
    requires n <= |slots|
  {
    && Placed(st) && Placed(st')
    && forall k {:trigger Asked(k)} :: Asked(k) ==>
         Tracks(slots, st) && Tracks(Swept(slots, n), st') && LaterKept(st, st', n)
  }

  // One slot of the sweep.
  lemma {:induction false} SweepOne(slots: Slots, st: State, st': State, k: nat)
    requires k < |slots| && SweptTo(slots, st, st', k)
    ensures var events := EndOf(slots[k], k);
            && Orderly(st', events) && SweptTo(slots, st, After(st', events), k + 1)
            && (Accepted(st', events) <==> RepairableAt(slots, st, k))
  {
    assert Asked(0);
    assert Swept(slots, k)[k] == slots[k];
    if EndOf(slots[k], k) != [] {
      EndTracks(Swept(slots, k), st', k);
    } else if slots[k].Some? {
      assert Marked(Swept(slots, k), k) == Swept(slots, k);
    }
  }

  lemma {:induction false} ClosingStep(slots: Slots, n: nat)
    requires 0 < n <= |slots|
    ensures Closing(slots[..n]) == Closing(slots[..n - 1]) + EndOf(slots[n - 1], n - 1)
  {
    assert slots[..n][..n - 1] == slots[..n - 1];
  }

  lemma {:induction false} SweepCloses(slots: Slots, st: State, n: nat)
    requires n <= |slots| && SweptTo(slots, st, st, 0)
    ensures SweptTo(slots, st, After(st, Closing(slots[..n])), n)
    decreases n
  {
    if n > 0 {
      SweepCloses(slots, st, n - 1);
      ClosingStep(slots, n);
      var before, last := Closing(slots[..n - 1]), EndOf(slots[n - 1], n - 1);
      SweepOne(slots, st, After(st, before), n - 1);
      AfterAppend(st, before, last);
    }
  }

  lemma {:induction false} SweepAccepted(slots: Slots, st: State, n: nat)
    requires n <= |slots| && SweptTo(slots, st, st, 0)
    ensures Orderly(st, Closing(slots[..n]))
    ensures Accepted(st, Closing(slots[..n])) <==> Repairable(slots, st, n)
    decreases n
  {
    if n > 0 {
      SweepAccepted(slots, st, n - 1);
      SweepCloses(slots, st, n - 1);
      ClosingStep(slots, n);
      var before, last := Closing(slots[..n - 1]), EndOf(slots[n - 1], n - 1);
      SweepOne(slots, st, After(st, before), n - 1);
      AfterAppend(st, before, last);
      OrderlyAppend(st, before, last);
      RepairableStep(slots, st, n);
    }
  }

  lemma {:induction false} RepairableStep(slots: Slots, st: State, n: nat)
    requires Placed(st) && 0 < n <= |slots|
    ensures Repairable(slots, st, n) <==> Repairable(slots, st, n - 1) && RepairableAt(slots, st, n - 1)
  {
  }

  // Sweeping all the slots leaves no block open.
  lemma {:induction false} SweepEndsAll(slots: Slots, st: State)
    requires Tracks(slots, st)
    ensures var events := Closing(slots);
            && Orderly(st, events) && (Accepted(st, events) <==> Repairable(slots, st, |slots|))
            && AllEnded(After(st, events))
  {
    SweepCloses(slots, st, |slots|);
    SweepAccepted(slots, st, |slots|);
    assert slots[..|slots|] == slots;
    assert Asked(0);
    SweptEnds(slots, |slots|);
  }

  // ---------------------------------------------------------------- the theorems

  lemma {:induction false} FinishCloses(p: Progress, st: State)
    requires Tracks(p.slots, st)
    ensures var events := Finish(p);
            && Orderly(st, events)
            && (Accepted(st, events) <==> p.sawStop && Repairable(p.slots, st, |p.slots|))
            && (p.sawStop ==> AllEnded(After(st, events)))
  {
    if !p.sawStop {
      AfterOne(st, Finish(p)[0]);
      assert Finish(p)[1..] == [];
    } else {
      var closing, stop := Closing(p.slots), [UsageReport(Totalled(p.usage)), StopEvent(p.reason, p.raw)];
      SweepEndsAll(p.slots, st);
      ReportAndStop(After(st, closing), Totalled(p.usage), p.reason, p.raw);
      AfterAppend(st, closing, stop);
      OrderlyAppend(st, closing, stop);
    }
  }

  // The whole stream is accepted exactly when what was read is, `message_stop` came, and
  // every tool call left open has arguments that can be repaired. Ending the blocks the
  // wire left open never breaks their order, and leaves none open.
  lemma {:induction false} AcceptedAsRead(wire: Wire, message: AssistantMessage, input: seq<Executor.ExecutorEvent>)
    requires message.content == []
    ensures var st, r := Initial(message), Receive(wire, NOTHING_YET, input);
            var out := Streamed(wire, input);
            && (Accepted(st, out) <==>
                 && Accepted(st, r.events) && r.ended.Some? && r.ended.value.sawStop
                 && Repairable(r.ended.value.slots, After(st, r.events), |r.ended.value.slots|))
            && (Accepted(st, r.events) ==> r.ended.Some? && Orderly(st, out))
            && (Accepted(st, out) ==> AllEnded(After(st, out)))
  {
    var st, r := Initial(message), Receive(wire, NOTHING_YET, input);
    ReceiveTracks(wire, NOTHING_YET, st, input);
    if r.ended.Some? {
      AfterAppend(st, r.events, Finish(r.ended.value));
      OrderlyAppend(st, r.events, Finish(r.ended.value));
      if Accepted(st, r.events) {
        AcceptedIsOrderly(st, r.events);
        FinishCloses(r.ended.value, After(st, r.events));
      }
    } else {
      assert Streamed(wire, input) == r.events;
    }
  }

  // A run that ends in `Done` has started every block once and ended it once, as one kind.
  lemma {:induction false} DoneEndsEveryBlock(wire: Wire, message: AssistantMessage, input: seq<Executor.ExecutorEvent>)
    requires message.content == []
    ensures var out := Streamed(wire, input);
            var trace := Driver.Loop(Initial(message), None, Nexts(out));
            trace != [] && (Last(trace).Done? ==> OnceEach(out))
  {
    var out := Streamed(wire, input);
    DoneMeansAccepted(Initial(message), None, out);
    AcceptedAsRead(wire, message, input);
    if Accepted(Initial(message), out) {
      EndedOnceEach(message, out);
    }
  }

  // ---------------------------------------------------------------- the stop

  predicate Mapped(p: Progress) {
    p.reason == if p.raw.Some? then MapStopReason(p.raw.value) else StopReason.Stop
  }

  lemma {:induction false} ReceiveMapped(wire: Wire, p: Progress, input: seq<Executor.ExecutorEvent>)
    requires Mapped(p)
    ensures var ended := Receive(wire, p, input).ended; ended.Some? ==> Mapped(ended.value)
    decreases |input|
  {
    if input != [] {
      var t := Take(wire, p, input[0]);
      assert Mapped(t.progress);
      if t.flow.Onward? {
        ReceiveMapped(wire, t.progress, input[1..]);
      }
    }
  }

  // Every response that saw `message_stop` stops last, with the wire's own reason and its
  // mapping, and right before it reports usage whose total is the sum of its parts.
  lemma {:induction false} StopIsTheWires(wire: Wire, input: seq<Executor.ExecutorEvent>)
    requires var ended := Receive(wire, NOTHING_YET, input).ended; ended.Some? && ended.value.sawStop
    ensures var p, out := Receive(wire, NOTHING_YET, input).ended.value, Streamed(wire, input);
            && |out| >= 2 && out[|out| - 2].UsageReport?
            && (var u := out[|out| - 2].usage; u.total == u.input + u.output + u.cacheRead + u.cacheWrite)
            && match p.raw
               case Some(raw) => out[|out| - 1] == StopWithRaw(MapStopReason(raw), raw)
               case None => out[|out| - 1] == ProtocolEvent.Stop(StopReason.Stop)
  {
    ReceiveMapped(wire, NOTHING_YET, input);
    var r := Receive(wire, NOTHING_YET, input);
    assert Streamed(wire, input)[|r.events|..] == Finish(r.ended.value);
  }
}
