// Whose raw stop reason a finished message carries.
module StopReasons {
  import opened Prelude
  import opened Messages
  import opened Assembler
  import opened AssemblerTheorems
  import opened Driver
  import opened ProtocolRuns
  import Adapters
  import Executor
  import OpenAiAdapter
  import OpenAiTheorems
  import AnthropicAdapter
  import AnthropicTheorems

  predicate IsStop(e: ProtocolEvent) {
    e.Stop? || e.StopWithRaw?
  }

  // The raw reason a stop gives.
  function RawGiven(e: ProtocolEvent): Option<string> {
    if e.StopWithRaw? then Some(e.raw) else None
  }

  function LastStop(steps: seq<AdapterStep>): Option<ProtocolEvent>
    decreases |steps|
  {
    if steps == [] then None
    else if LastStop(steps[1..]).Some? then LastStop(steps[1..])
    else if steps[0].Next? && IsStop(steps[0].event) then Some(steps[0].event)
    else None
  }

  // The raw reason of the last stop that gives one.
  function LastRaw(steps: seq<AdapterStep>): Option<string>
    decreases |steps|
  {
    if steps == [] then None
    else if LastRaw(steps[1..]).Some? then LastRaw(steps[1..])
    else if steps[0].Next? then RawGiven(steps[0].event)
    else None
  }

  lemma {:induction false} StepRaw(st: State, e: ProtocolEvent)
    requires Placed(st) && !Rejects(st, e)
    ensures Step(st, e).state.message.rawStopReason == if e.StopWithRaw? then Some(e.raw) else st.message.rawStopReason
  {
  }

  lemma {:induction false} NotedRaw(st: State, diagnostics: seq<Diagnostic>)
    requires Placed(st)
    ensures Noted(st, diagnostics).message.rawStopReason == st.message.rawStopReason
    decreases |diagnostics|
  {
    if diagnostics != [] {
      NotedRaw(Step(st, Report(diagnostics[0])).state, diagnostics[1..]);
    }
  }

  lemma {:induction false} LoopCarriesLast(st: State, reason: Option<StopReason>, steps: seq<AdapterStep>)
    requires Placed(st)
    ensures Loop(st, reason, steps) != []
    ensures var last := Last(Loop(st, reason, steps));
            last.Done? ==>
              && last.message.rawStopReason == Either(LastRaw(steps), st.message.rawStopReason)
              && (if LastStop(steps).Some? then Some(last.reason) == NormalizedStop(LastStop(steps).value)
                  else Some(last.reason) == reason)
    decreases |steps|
  {
    if steps != [] {
      LoopEnds(st, reason, steps);
      var t := Turn(st, reason, steps[0]);
      if t.last {
        LastTurn(st, reason, steps);
      } else {
        StepRaw(st, steps[0].event);
        LoopCarriesLast(t.state, t.reason, steps[1..]);
        LoopGoesOn(st, reason, steps);
      }
    }
  }

  // A turn that ends the stream ends it with a failure.
  lemma {:induction false} LastTurn(st: State, reason: Option<StopReason>, steps: seq<AdapterStep>)
    requires Placed(st) && steps != [] && Turn(st, reason, steps[0]).last
    ensures Loop(st, reason, steps) != [] && Last(Loop(st, reason, steps)).Failed?
  {
    var t := Turn(st, reason, steps[0]);
    assert Loop(st, reason, steps) == [Traced(t.event.value, t.state)];
  }

  lemma {:induction false} LoopGoesOn(st: State, reason: Option<StopReason>, steps: seq<AdapterStep>)
    requires Placed(st) && steps != [] && !Turn(st, reason, steps[0]).last
    ensures var t := Turn(st, reason, steps[0]);
            && Loop(st, reason, steps) != [] && Loop(t.state, t.reason, steps[1..]) != []
            && Last(Loop(st, reason, steps)) == Last(Loop(t.state, t.reason, steps[1..]))
  {
    var t := Turn(st, reason, steps[0]);
    LoopEnds(t.state, t.reason, steps[1..]);
  }

  lemma {:induction false} RawNeedsStop(steps: seq<AdapterStep>)
    ensures LastRaw(steps).Some? ==> LastStop(steps).Some?
    ensures LastStop(steps).Some? ==> IsStop(LastStop(steps).value)
    ensures LastStop(steps).Some? && LastStop(steps).value.StopWithRaw? ==>
            LastRaw(steps) == RawGiven(LastStop(steps).value)
    decreases |steps|
  {
    if steps != [] {
      RawNeedsStop(steps[1..]);
    }
  }

  // In every driven run that succeeds, the reason is that of the last stop, and the raw
  // reason that of the last stop that gave one. So the raw reason belongs to the reported
  // stop if and only if the last stop gives one, or no stop before it did.
  lemma {:induction false} DoneCarriesLastRaw(model: string, provider: string, api: string, now: int,
                                              checks: seq<Option<string>>, normalized: Result<seq<Diagnostic>, string>,
                                              auth: Authorized, steps: seq<AdapterStep>)
    ensures var last := Last(Driven(Streaming(model, provider, api, now), checks, normalized, auth, steps));
            last.Done? ==>
              && LastStop(steps).Some? && Some(last.reason) == NormalizedStop(LastStop(steps).value)
              && last.message.rawStopReason == LastRaw(steps)
              && (last.message.rawStopReason == RawGiven(LastStop(steps).value) <==>
                   LastStop(steps).value.StopWithRaw? || LastRaw(steps) == None)
  {
    var initial := Streaming(model, provider, api, now);
    RawNeedsStop(steps);
    if FirstRefusal(checks).None? && normalized.Ok? && auth.Resolved? {
      var st := Noted(Initial(initial), normalized.value);
      NotedRaw(Initial(initial), normalized.value);
      LoopCarriesLast(st, None, steps);
      assert Driven(initial, checks, normalized, auth, steps) ==
             [Traced(Start(initial), Initial(initial))] + Loop(st, None, steps);
    }
  }

  // ---------------------------------------------------------------- the wire adapters

  predicate NoStops(events: seq<ProtocolEvent>) {
    forall k :: 0 <= k < |events| ==> !IsStop(events[k])
  }

  // A stop is never undone.
  lemma {:induction false} RunningHasNoStops(st: State, events: seq<ProtocolEvent>)
    requires Placed(st) && !After(st, events).stopped
    ensures NoStops(events) && !st.stopped
    decreases |events|
  {
    if events != [] {
      RunningHasNoStops(Step(st, events[0]).state, events[1..]);
      assert forall k :: 0 < k < |events| ==> events[k] == events[1..][k - 1];
    }
  }

  lemma {:induction false} StopFreeSteps(events: seq<ProtocolEvent>, stop: ProtocolEvent)
    requires NoStops(events) && IsStop(stop)
    ensures LastStop(Nexts(events + [stop])) == Some(stop) && LastRaw(Nexts(events + [stop])) == RawGiven(stop)
    decreases |events|
  {
    if events == [] {
      assert Nexts([stop])[1..] == [];
      assert [] + [stop] == [stop];
    } else {
      var all := events + [stop];
      assert all[0] == events[0] && all[1..] == events[1..] + [stop];
      assert Nexts(all)[1..] == Nexts(all[1..]);
      StopFreeSteps(events[1..], stop);
    }
  }

  // The only stop is the last event.
  predicate StopsOnce(events: seq<ProtocolEvent>) {
    events != [] && IsStop(events[|events| - 1]) && NoStops(events[..|events| - 1])
  }

  // What an adapter that stops once reports in its `Done`.
  ghost predicate ReportsItsStop(message: AssistantMessage, out: seq<ProtocolEvent>) {
    && Loop(Initial(message), None, Nexts(out)) != []
    && (Last(Loop(Initial(message), None, Nexts(out))).Done? ==>
         && StopsOnce(out)
         && var done, stop := Last(Loop(Initial(message), None, Nexts(out))), out[|out| - 1];
            Some(done.reason) == NormalizedStop(stop) && done.message.rawStopReason == RawGiven(stop))
  }

  lemma {:induction false} OneStopIsReported(message: AssistantMessage, out: seq<ProtocolEvent>)
    requires message.rawStopReason == None && (Accepted(Initial(message), out) ==> StopsOnce(out))
    ensures ReportsItsStop(message, out)
  {
    DoneMeansAccepted(Initial(message), None, out);
    if Accepted(Initial(message), out) {
      var events, stop := out[..|out| - 1], out[|out| - 1];
      assert out == events + [stop];
      StopFreeSteps(events, stop);
      LoopCarriesLast(Initial(message), None, Nexts(out));
    }
  }

  lemma {:induction false} JoinStopsOnce(read: seq<ProtocolEvent>, closing: seq<ProtocolEvent>, usage: Usage,
                                         stop: ProtocolEvent)
    requires NoStops(read) && NoStops(closing) && IsStop(stop)
    ensures StopsOnce(read + (closing + [UsageReport(usage), stop]))
  {
    var out := read + (closing + [UsageReport(usage), stop]);
    assert out[..|out| - 1] == read + (closing + [UsageReport(usage)]);
  }

  lemma {:induction false} OpenAiClosingHasNoStops(wire: OpenAiAdapter.Wire, s: OpenAiAdapter.Slots)
    ensures NoStops(OpenAiAdapter.Closing(wire, s))
  {
    CloseToolsHasNoStops(s.tools);
  }

  lemma {:induction false} CloseToolsHasNoStops(tools: seq<OpenAiAdapter.ToolAccum>)
    ensures NoStops(OpenAiAdapter.CloseTools(tools))
    decreases |tools|
  {
    if tools != [] {
      CloseToolsHasNoStops(tools[..|tools| - 1]);
    }
  }

  // The OpenAI adapter's raw reason is always its own stop's.
  lemma {:induction false} OpenAiReportsItsStop(wire: OpenAiAdapter.Wire, message: AssistantMessage,
                                                input: seq<Executor.ExecutorEvent>)
    requires message.content == [] && message.rawStopReason == None
    ensures ReportsItsStop(message, OpenAiAdapter.Streamed(wire, input))
  {
    var r, st, out := OpenAiAdapter.Receive(wire, OpenAiAdapter.NOTHING_YET, input), Initial(message),
                      OpenAiAdapter.Streamed(wire, input);
    OpenAiTheorems.StreamIsOrderly(wire, message, input);
    if Accepted(st, out) {
      var p := r.ended.value;
      OpenAiTheorems.StartsInAgreement(message);
      var owners := OpenAiTheorems.ReceiveAgrees(wire, OpenAiAdapter.NOTHING_YET, st, [], input);
      RunningHasNoStops(st, r.events);
      OpenAiClosingHasNoStops(wire, p.slots);
      JoinStopsOnce(r.events, OpenAiAdapter.Closing(wire, p.slots), p.usage,
                    Adapters.StopEvent(OpenAiAdapter.FinalReason(p), p.raw));
    }
    OneStopIsReported(message, out);
  }

  lemma {:induction false} AnthropicClosingHasNoStops(slots: AnthropicAdapter.Slots)
    ensures NoStops(AnthropicAdapter.Closing(slots))
    decreases |slots|
  {
    if slots != [] {
      AnthropicClosingHasNoStops(slots[..|slots| - 1]);
    }
  }

  // So is the Anthropic adapter's.
  lemma {:induction false} AnthropicReportsItsStop(wire: AnthropicAdapter.Wire, message: AssistantMessage,
                                                   input: seq<Executor.ExecutorEvent>)
    requires message.content == [] && message.rawStopReason == None
    ensures ReportsItsStop(message, AnthropicAdapter.Streamed(wire, input))
  {
    var r, st, out := AnthropicAdapter.Receive(wire, AnthropicAdapter.NOTHING_YET, input), Initial(message),
                      AnthropicAdapter.Streamed(wire, input);
    AnthropicTheorems.AcceptedAsRead(wire, message, input);
    if Accepted(st, out) {
      var p := r.ended.value;
      AnthropicTheorems.ReceiveTracks(wire, AnthropicAdapter.NOTHING_YET, st, input);
      RunningHasNoStops(st, r.events);
      AnthropicClosingHasNoStops(p.slots);
      JoinStopsOnce(r.events, AnthropicAdapter.Closing(p.slots), AnthropicAdapter.Totalled(p.usage),
                    Adapters.StopEvent(p.reason, p.raw));
    }
    OneStopIsReported(message, out);
  }
}
