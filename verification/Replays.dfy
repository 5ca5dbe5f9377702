// When a repaired history is a legal request: every call of a turn is answered by a result
// of its own, standing between that turn and the next message.
module Replays {
  import opened Prelude
  import opened Messages
  import opened ToolCallIds
  import opened Normalize
  import opened NormalizeTheorems

  // ---------------------------------------------------------------- legal requests

  // What reading a request message by message leaves owed: one result per unanswered call.
  datatype Reading = Illegal | Owing(ids: multiset<string>)

  const SETTLED := Owing(multiset{})

  // The results the calls of a turn ask for, those of forgiven ids aside.
  function Owed(calls: seq<ToolCall>, forgiven: set<string>): multiset<string> {
    if calls == [] then multiset{}
    else
      Owed(calls[..|calls| - 1], forgiven) +
      (if calls[|calls| - 1].id in forgiven then multiset{} else multiset{calls[|calls| - 1].id})
  }

  // A result must answer a call that is still owed one; any other message must find nothing owed.
  function Next(r: Reading, m: Message, forgiven: set<string>): Reading {
    match r
    case Illegal => Illegal
    case Owing(ids) =>
      match m
      case ToolResult(id, _, _, _, _) => if id in ids then Owing(ids - multiset{id}) else Illegal
      case _ => if ids == multiset{} then Owing(Owed(CallsOf(m), forgiven)) else Illegal
  }

  function Read(r: Reading, messages: seq<Message>, forgiven: set<string>): Reading
    decreases |messages|
  {
    if messages == [] then r
    else Next(Read(r, messages[..|messages| - 1], forgiven), messages[|messages| - 1], forgiven)
  }

  // Only a turn that ends the request may be left without its results.
  predicate Legal(messages: seq<Message>, forgiven: set<string>) {
    var r := Read(SETTLED, messages, forgiven);
    r.Owing? && (r == SETTLED || (messages != [] && messages[|messages| - 1].Assistant?))
  }

  lemma {:induction false} ReadAppend(r: Reading, xs: seq<Message>, ys: seq<Message>, forgiven: set<string>)
    ensures Read(r, xs + ys, forgiven) == Read(Read(r, xs, forgiven), ys, forgiven)
    decreases |ys|
  {
    if ys == [] {
      assert xs + ys == xs;
    } else {
      var before, y := ys[..|ys| - 1], ys[|ys| - 1];
      ReadAppend(r, xs, before, forgiven);
      assert (xs + ys)[..|xs + ys| - 1] == xs + before && (xs + ys)[|xs + ys| - 1] == y;
    }
  }

  lemma {:induction false} ReadSnoc(r: Reading, xs: seq<Message>, y: Message, forgiven: set<string>)
    ensures Read(r, xs + [y], forgiven) == Next(Read(r, xs, forgiven), y, forgiven)
  {
    assert (xs + [y])[..|xs|] == xs;
  }

  // ---------------------------------------------------------------- what legality means

  // The end of the run of results that starts at `from`.
  function RunEnd(messages: seq<Message>, from: nat): (end: nat)
    requires from <= |messages|
    ensures from <= end <= |messages|
    ensures end < |messages| ==> !messages[end].ToolResult?
    ensures forall k :: from <= k < end ==> messages[k].ToolResult?
    decreases |messages| - from
  {
    if from < |messages| && messages[from].ToolResult? then RunEnd(messages, from + 1) else from
  }

  // The ids a list of results answers, with multiplicity.
  function Results(messages: seq<Message>): multiset<string> {
    if messages == [] then multiset{}
    else
      Results(messages[..|messages| - 1]) +
      (if messages[|messages| - 1].ToolResult? then multiset{messages[|messages| - 1].callId} else multiset{})
  }

  // Directly after message `i` stand as many results for each id as it has calls of that id.
  predicate AnsweredInPlace(messages: seq<Message>, i: nat)
    requires i < |messages|
  {
    Results(messages[i + 1..RunEnd(messages, i + 1)]) == Owed(CallsOf(messages[i]), {})
  }

  lemma {:induction false} ReadRun(ids: multiset<string>, run: seq<Message>, forgiven: set<string>)
    requires forall k :: 0 <= k < |run| ==> run[k].ToolResult?
    ensures Read(Owing(ids), run, forgiven) == if Results(run) <= ids then Owing(ids - Results(run)) else Illegal
    decreases |run|
  {
    if run != [] {
      var before, id := run[..|run| - 1], run[|run| - 1].callId;
      ReadRun(ids, before, forgiven);
      TakeOne(ids, Results(before), id);
    }
  }

  lemma {:induction false} TakeOne(ids: multiset<string>, taken: multiset<string>, id: string)
    ensures taken + multiset{id} <= ids <==> taken <= ids && id in ids - taken
    ensures ids - (taken + multiset{id}) == ids - taken - multiset{id}
  {
    var more := taken + multiset{id};
    if taken <= ids && id in ids - taken {
      forall x
        ensures more[x] <= ids[x]
      {
        assert taken[x] <= ids[x];
      }
    }
    if more <= ids {
      assert more[id] <= ids[id];
    }
  }

  // Reading up to the end of the run after message `i`.
  lemma {:induction false} ReadToRunEnd(messages: seq<Message>, i: nat, ids: multiset<string>)
    requires i < |messages| && Read(SETTLED, messages[..i + 1], {}) == Owing(ids)
    ensures var run := messages[i + 1..RunEnd(messages, i + 1)];
            Read(SETTLED, messages[..RunEnd(messages, i + 1)], {}) ==
            if Results(run) <= ids then Owing(ids - Results(run)) else Illegal
  {
    var end := RunEnd(messages, i + 1);
    assert messages[..end] == messages[..i + 1] + messages[i + 1..end];
    ReadThrough(messages[..i + 1], messages[i + 1..end], ids);
  }

  lemma {:induction false} ReadThrough(before: seq<Message>, run: seq<Message>, ids: multiset<string>)
    requires Read(SETTLED, before, {}) == Owing(ids) && forall k :: 0 <= k < |run| ==> run[k].ToolResult?
    ensures Read(SETTLED, before + run, {}) == if Results(run) <= ids then Owing(ids - Results(run)) else Illegal
  {
    ReadAppend(SETTLED, before, run, {});
    ReadRun(ids, run, {});
  }

  lemma {:induction false} ReadPrefix(messages: seq<Message>, n: nat, forgiven: set<string>)
    requires n < |messages|
    ensures Read(SETTLED, messages[..n + 1], forgiven) ==
            Next(Read(SETTLED, messages[..n], forgiven), messages[n], forgiven)
  {
    assert messages[..n + 1] == messages[..n] + [messages[n]];
    ReadSnoc(SETTLED, messages[..n], messages[n], forgiven);
  }

  lemma {:induction false} PrefixIsRead(messages: seq<Message>, n: nat, forgiven: set<string>)
    requires n <= |messages| && Read(SETTLED, messages, forgiven).Owing?
    ensures Read(SETTLED, messages[..n], forgiven).Owing?
  {
    assert messages == messages[..n] + messages[n..];
    ReadAppend(SETTLED, messages[..n], messages[n..], forgiven);
    if Read(SETTLED, messages[..n], forgiven).Illegal? {
      NothingHeals(messages[n..], forgiven);
    }
  }

  lemma {:induction false} NothingHeals(messages: seq<Message>, forgiven: set<string>)
    ensures Read(Illegal, messages, forgiven) == Illegal
    decreases |messages|
  {
    if messages != [] {
      NothingHeals(messages[..|messages| - 1], forgiven);
    }
  }

  // In a legal request nothing is owed before a turn, nor after its last result.
  lemma {:induction false} NothingOwedAt(messages: seq<Message>, n: nat)
    requires Legal(messages, {}) && n <= |messages|
    requires if n < |messages| then !messages[n].ToolResult? else n > 0 ==> messages[n - 1].ToolResult?
    ensures Read(SETTLED, messages[..n], {}) == SETTLED
  {
    if n < |messages| {
      PrefixIsRead(messages, n + 1, {});
      ReadPrefix(messages, n, {});
    } else {
      assert messages[..n] == messages;
    }
  }

  lemma {:induction false} LegalAnswers(messages: seq<Message>, i: nat)
    requires Legal(messages, {}) && i < |messages| - 1 && !messages[i].ToolResult?
    ensures AnsweredInPlace(messages, i)
  {
    var end, owed := RunEnd(messages, i + 1), Owed(CallsOf(messages[i]), {});
    NothingOwedAt(messages, i);
    ReadPrefix(messages, i, {});
    NothingOwedAt(messages, end);
    ReadToRunEnd(messages, i, owed);
    Spent(owed, Results(messages[i + 1..end]));
  }

  lemma {:induction false} Spent(ids: multiset<string>, taken: multiset<string>)
    ensures taken <= ids && ids - taken == multiset{} <==> taken == ids
  {
    if taken <= ids && ids - taken == multiset{} {
      forall x
        ensures taken[x] == ids[x]
      {
        assert (ids - taken)[x] == 0;
      }
    }
  }

  // With nothing owed before message `n`, what follows reads through.
  lemma {:induction false} AnswersAreLegal(messages: seq<Message>, n: nat)
    requires n <= |messages| && Read(SETTLED, messages[..n], {}) == SETTLED
    requires n < |messages| ==> !messages[n].ToolResult?
    requires forall i :: n <= i < |messages| - 1 && !messages[i].ToolResult? ==> AnsweredInPlace(messages, i)
    ensures Legal(messages, {})
    decreases |messages| - n
  {
    if n == |messages| {
      assert messages[..n] == messages;
    } else {
      ReadPrefix(messages, n, {});
      if n == |messages| - 1 {
        assert messages[..n + 1] == messages;
      } else {
        var owed := Owed(CallsOf(messages[n]), {});
        ReadToRunEnd(messages, n, owed);
        Spent(owed, owed);
        AnswersAreLegal(messages, RunEnd(messages, n + 1));
      }
    }
  }

  // A request is legal exactly when it opens with no result and, directly after every other
  // message but the last, stand as many results for each id as that message has calls of it.
  lemma {:induction false} LegalMeans(messages: seq<Message>)
    ensures Legal(messages, {}) <==>
            && (messages != [] ==> !messages[0].ToolResult?)
            && (forall i :: 0 <= i < |messages| - 1 && !messages[i].ToolResult? ==> AnsweredInPlace(messages, i))
  {
    assert messages[..0] == [];
    if Legal(messages, {}) {
      if messages != [] {
        PrefixIsRead(messages, 1, {});
        ReadPrefix(messages, 0, {});
      }
      forall i | 0 <= i < |messages| - 1 && !messages[i].ToolResult?
        ensures AnsweredInPlace(messages, i)
      {
        LegalAnswers(messages, i);
      }
    } else if messages == [] || !messages[0].ToolResult? {
      if forall i :: 0 <= i < |messages| - 1 && !messages[i].ToolResult? ==> AnsweredInPlace(messages, i) {
        AnswersAreLegal(messages, 0);
      }
    }
  }

  // ---------------------------------------------------------------- repair

  // Every id a turn calls, with multiplicity.
  function Called(messages: seq<Message>): multiset<string> {
    if messages == [] then multiset{}
    else Called(messages[..|messages| - 1]) + Owed(CallsOf(messages[|messages| - 1]), {})
  }

  // The ids that are called and that no result of the history answers.
  function Unanswered(messages: seq<Message>): set<string> {
    set id | id in Called(messages) && id !in Answered(messages)
  }

  lemma {:induction false} OwedIs(calls: seq<ToolCall>, forgiven: set<string>, id: string)
    ensures id in Owed(calls, forgiven) <==> id !in forgiven && exists k :: 0 <= k < |calls| && calls[k].id == id
    decreases |calls|
  {
    if calls != [] {
      var before, c := calls[..|calls| - 1], calls[|calls| - 1];
      OwedIs(before, forgiven, id);
      CallSnoc(before, c, id);
      assert calls == before + [c];
    }
  }

  lemma {:induction false} CalledIs(messages: seq<Message>, m: Message, id: string)
    requires m in messages && HasCall(m, id)
    ensures id in Called(messages)
    decreases |messages|
  {
    var before, last := messages[..|messages| - 1], messages[|messages| - 1];
    assert messages == before + [last];
    if m in before {
      CalledIs(before, m, id);
    } else {
      OwedIs(CallsOf(last), {}, id);
    }
  }

  // The synthetic results pay for exactly the forgiven calls.
  lemma {:induction false} SyntheticPays(calls: seq<ToolCall>, more: multiset<string>, answered: set<string>,
                                         forgiven: set<string>, timestamp: int)
    requires forall k :: 0 <= k < |calls| ==> (calls[k].id in forgiven <==> calls[k].id !in answered)
    ensures Read(Owing(Owed(calls, {}) + more), Synthetic(calls, answered, timestamp), {}) ==
            Owing(Owed(calls, forgiven) + more)
    decreases |calls|
  {
    if calls != [] {
      var before, c := calls[..|calls| - 1], calls[|calls| - 1];
      var one := multiset{c.id};
      SyntheticPays(before, one + more, answered, forgiven, timestamp);
      Regroup(Owed(before, {}), c.id, more);
      Regroup(Owed(before, forgiven), c.id, more);
      if c.id !in answered {
        ReadSnoc(Owing(Owed(calls, {}) + more), Synthetic(before, answered, timestamp),
                 SyntheticResult(c, timestamp), {});
      }
    }
  }

  lemma {:induction false} Regroup(owed: multiset<string>, id: string, more: multiset<string>)
    ensures owed + multiset{id} + more == owed + (multiset{id} + more)
    ensures owed + (multiset{id} + more) - multiset{id} == owed + more
    ensures owed + multiset{} == owed
    ensures id in owed + (multiset{id} + more)
  {
  }

  lemma {:induction false} MendedReads(r: Reading, m: Message, answered: set<string>, forgiven: set<string>)
    requires forall id :: HasCall(m, id) ==> (id in forgiven <==> id !in answered)
    ensures Read(r, Mended(m, answered), {}) == Next(r, m, forgiven)
  {
    ReadSnoc(r, [], m, {});
    assert [] + [m] == [m];
    if m.Assistant? {
      var calls, synthetic := CallsOf(m), Synthetic(CallsOf(m), answered, m.turn.timestamp);
      ReadAppend(r, [m], synthetic, {});
      if r == SETTLED {
        assert forall k :: 0 <= k < |calls| ==> HasCall(m, calls[k].id);
        SyntheticPays(calls, multiset{}, answered, forgiven, m.turn.timestamp);
        assert Owed(calls, {}) + multiset{} == Owed(calls, {});
        assert Owed(calls, forgiven) + multiset{} == Owed(calls, forgiven);
      } else {
        NothingHeals(synthetic, {});
      }
    } else {
      assert [m] + [] == [m];
    }
  }

  lemma {:induction false} MendAllReads(messages: seq<Message>, answered: set<string>, forgiven: set<string>)
    requires forall m, id :: m in messages && HasCall(m, id) ==> (id in forgiven <==> id !in answered)
    ensures Read(SETTLED, MendAll(messages, answered), {}) == Read(SETTLED, messages, forgiven)
    decreases |messages|
  {
    if messages != [] {
      var before, m := messages[..|messages| - 1], messages[|messages| - 1];
      assert messages == before + [m];
      MendAllReads(before, answered, forgiven);
      ReadAppend(SETTLED, MendAll(before, answered), Mended(m, answered), {});
      MendedReads(Read(SETTLED, before, forgiven), m, answered, forgiven);
    }
  }

  lemma {:induction false} LegalSnoc(history: seq<Message>, last: Message, forgiven: set<string>)
    ensures Legal(history + [last], forgiven) <==>
            Next(Read(SETTLED, history, forgiven), last, {}).Owing? &&
            (last.Assistant? || Next(Read(SETTLED, history, forgiven), last, {}) == SETTLED)
  {
    ReadSnoc(SETTLED, history, last, forgiven);
  }

  // A repaired history is a legal request exactly when the surviving messages are one as
  // soon as the calls no result of the history answers are forgiven.
  lemma {:induction false} RepairedIsLegalExactly(messages: seq<Message>)
    ensures Legal(Repaired(messages), {}) <==>
            Legal(Filtered(messages, DroppedCalls(messages)), Unanswered(messages))
  {
    var kept, forgiven := Filtered(messages, DroppedCalls(messages)), Unanswered(messages);
    if kept != [] {
      var history, last := History(kept), kept[|kept| - 1];
      assert kept == history + [last];
      forall m, id | m in history && HasCall(m, id)
        ensures id in forgiven <==> id !in Answered(messages)
      {
        FilteredIs(messages, DroppedCalls(messages), m);
        CalledIs(messages, m, id);
      }
      MendAllReads(history, Answered(messages), forgiven);
      LegalSnoc(MendAll(history, Answered(messages)), last, {});
      LegalSnoc(history, last, forgiven);
    }
  }

  // ---------------------------------------------------------------- recorded histories

  // A history as a tool loop records it: a result stands after the turn that made its call,
  // with only results between, and answers a call not answered yet. A turn may have been
  // left before all its results were in.
  function NextRecorded(r: Reading, m: Message): Reading {
    match r
    case Illegal => Illegal
    case Owing(ids) =>
      match m
      case ToolResult(id, _, _, _, _) => if id in ids then Owing(ids - multiset{id}) else Illegal
      case _ => Owing(Owed(CallsOf(m), {}))
  }

  function ReadRecorded(r: Reading, messages: seq<Message>): Reading
    decreases |messages|
  {
    if messages == [] then r
    else NextRecorded(ReadRecorded(r, messages[..|messages| - 1]), messages[|messages| - 1])
  }

  // ... and no id is called twice.
  ghost predicate Recorded(messages: seq<Message>) {
    ReadRecorded(SETTLED, messages).Owing? && forall id :: Called(messages)[id] <= 1
  }

  lemma {:induction false} RecordedAppend(r: Reading, xs: seq<Message>, ys: seq<Message>)
    ensures ReadRecorded(r, xs + ys) == ReadRecorded(ReadRecorded(r, xs), ys)
    decreases |ys|
  {
    if ys == [] {
      assert xs + ys == xs;
    } else {
      var before, y := ys[..|ys| - 1], ys[|ys| - 1];
      RecordedAppend(r, xs, before);
      assert (xs + ys)[..|xs + ys| - 1] == xs + before && (xs + ys)[|xs + ys| - 1] == y;
    }
  }

  lemma {:induction false} CalledAppend(xs: seq<Message>, ys: seq<Message>)
    ensures Called(xs + ys) == Called(xs) + Called(ys)
    decreases |ys|
  {
    if ys == [] {
      assert xs + ys == xs;
    } else {
      var before, y := ys[..|ys| - 1], ys[|ys| - 1];
      CalledAppend(xs, before);
      assert (xs + ys)[..|xs + ys| - 1] == xs + before && (xs + ys)[|xs + ys| - 1] == y;
    }
  }

  lemma {:induction false} ResultsAppend(xs: seq<Message>, ys: seq<Message>)
    ensures Results(xs + ys) == Results(xs) + Results(ys)
    decreases |ys|
  {
    if ys == [] {
      assert xs + ys == xs;
    } else {
      var before, y := ys[..|ys| - 1], ys[|ys| - 1];
      ResultsAppend(xs, before);
      assert (xs + ys)[..|xs + ys| - 1] == xs + before && (xs + ys)[|xs + ys| - 1] == y;
    }
  }

  lemma {:induction false} AnsweredAreResults(messages: seq<Message>, id: string)
    ensures id in Answered(messages) <==> id in Results(messages)
    decreases |messages|
  {
    if messages != [] {
      AnsweredAreResults(messages[..|messages| - 1], id);
    }
  }

  // Results are paid out of what was owed and what was called since.
  lemma {:induction false} Balance(r: Reading, messages: seq<Message>, id: string)
    requires ReadRecorded(r, messages).Owing?
    ensures r.Owing? && ReadRecorded(r, messages).ids[id] + Results(messages)[id] <= r.ids[id] + Called(messages)[id]
    decreases |messages|
  {
    if messages != [] {
      Balance(r, messages[..|messages| - 1], id);
    }
  }

  // What is still owed where the next turn comes is never paid.
  lemma {:induction false} OwedForever(messages: seq<Message>, n: nat, id: string)
    requires Recorded(messages) && n <= |messages| && (n < |messages| ==> !messages[n].ToolResult?)
    ensures ReadRecorded(SETTLED, messages[..n]).Owing?
    ensures id in ReadRecorded(SETTLED, messages[..n]).ids ==> id in Unanswered(messages)
  {
    RecordedPrefix(messages, n);
    var before := messages[..n];
    Balance(SETTLED, before, id);
    if id in ReadRecorded(SETTLED, before).ids {
      assert Called(messages)[id] <= 1;
      if n < |messages| {
        RestPaysNothing(messages, n, id);
      } else {
        assert before == messages;
      }
      AnsweredAreResults(messages, id);
    }
  }

  lemma {:induction false} RecordedPrefix(messages: seq<Message>, n: nat)
    requires n <= |messages| && ReadRecorded(SETTLED, messages).Owing?
    ensures ReadRecorded(SETTLED, messages[..n]).Owing?
  {
    var r := ReadRecorded(SETTLED, messages[..n]);
    assert messages == messages[..n] + messages[n..];
    RecordedAppend(SETTLED, messages[..n], messages[n..]);
    Balance(r, messages[n..], "");
  }

  lemma {:induction false} RestPaysNothing(messages: seq<Message>, n: nat, id: string)
    requires n < |messages| && !messages[n].ToolResult? && ReadRecorded(SETTLED, messages).Owing?
    ensures Called(messages) == Called(messages[..n]) + Called(messages[n..])
    ensures Results(messages) == Results(messages[..n]) + Results(messages[n..])
    ensures Results(messages[n..])[id] <= Called(messages[n..])[id]
  {
    var before, rest := messages[..n], messages[n..];
    assert messages == before + rest;
    CalledAppend(before, rest);
    ResultsAppend(before, rest);
    RecordedAppend(SETTLED, before, rest);
    TurnPaysNothing(ReadRecorded(SETTLED, before), rest, id);
  }

  lemma {:induction false} TurnPaysNothing(r: Reading, rest: seq<Message>, id: string)
    requires rest != [] && !rest[0].ToolResult? && ReadRecorded(r, rest).Owing?
    ensures Results(rest)[id] <= Called(rest)[id]
  {
    var m, after := [rest[0]], rest[1..];
    assert rest == m + after;
    RecordedAppend(r, m, after);
    CalledAppend(m, after);
    ResultsAppend(m, after);
    Balance(ReadRecorded(r, m), after, id);
    assert m[..0] == [];
  }

  // Whether the newest turn is a failed one, whose results go with it.
  predicate InFailedTurn(messages: seq<Message>) {
    messages != [] &&
    (if messages[|messages| - 1].ToolResult? then InFailedTurn(messages[..|messages| - 1])
     else IsFailedTurn(messages[|messages| - 1]))
  }

  // What a recorded history owes and what its survivors owe at the same place: nothing in a
  // failed turn, otherwise the same but for the forgiven ids.
  ghost predicate Tracks(recorded: Reading, kept: Reading, failed: bool, dropped: set<string>, forgiven: set<string>) {
    && recorded.Owing? && kept.Owing?
    && (forall id :: id in recorded.ids ==> (id in dropped <==> failed))
    && (forall id :: kept.ids[id] == if failed || id in forgiven then 0 else recorded.ids[id])
  }

  lemma {:induction false} ResultTracks(recorded: Reading, kept: Reading, failed: bool, dropped: set<string>,
                                        forgiven: set<string>, m: Message)
    requires Tracks(recorded, kept, failed, dropped, forgiven)
    requires m.ToolResult? && m.callId !in forgiven && NextRecorded(recorded, m).Owing?
    ensures Tracks(NextRecorded(recorded, m), if Survives(m, dropped) then Next(kept, m, forgiven) else kept,
                   failed, dropped, forgiven)
  {
    assert m.callId in recorded.ids;
    assert failed || kept.ids[m.callId] == recorded.ids[m.callId];
  }

  lemma {:induction false} TurnTracks(recorded: Reading, kept: Reading, failed: bool, dropped: set<string>,
                                      forgiven: set<string>, m: Message)
    requires Tracks(recorded, kept, failed, dropped, forgiven)
    requires !m.ToolResult? && forall id :: id in recorded.ids ==> id in forgiven
    requires forall id :: HasCall(m, id) ==> (id in dropped <==> IsFailedTurn(m))
    ensures Tracks(NextRecorded(recorded, m), if Survives(m, dropped) then Next(kept, m, forgiven) else kept,
                   IsFailedTurn(m), dropped, forgiven)
  {
    NothingKeptOwed(recorded, kept, failed, dropped, forgiven);
    forall id
      ensures id in Owed(CallsOf(m), {}) ==> HasCall(m, id)
      ensures Owed(CallsOf(m), forgiven)[id] == if id in forgiven then 0 else Owed(CallsOf(m), {})[id]
    {
      OwedIs(CallsOf(m), {}, id);
      OwedLess(CallsOf(m), forgiven, id);
    }
  }

  lemma {:induction false} NothingKeptOwed(recorded: Reading, kept: Reading, failed: bool, dropped: set<string>,
                                           forgiven: set<string>)
    requires Tracks(recorded, kept, failed, dropped, forgiven)
    requires forall id :: id in recorded.ids ==> id in forgiven
    ensures kept == SETTLED
  {
    forall id
      ensures kept.ids[id] == 0
    {
      assert kept.ids[id] == if failed || id in forgiven then 0 else recorded.ids[id];
    }
    assert kept.ids == multiset{};
  }

  lemma {:induction false} OwedLess(calls: seq<ToolCall>, forgiven: set<string>, id: string)
    ensures Owed(calls, forgiven)[id] == if id in forgiven then 0 else Owed(calls, {})[id]
    decreases |calls|
  {
    if calls != [] {
      OwedLess(calls[..|calls| - 1], forgiven, id);
    }
  }

  lemma {:induction false} TwoCallers(messages: seq<Message>, i: nat, j: nat, id: string)
    requires i < j < |messages| && HasCall(messages[i], id) && HasCall(messages[j], id)
    ensures Called(messages)[id] >= 2
  {
    assert messages == messages[..j] + messages[j..];
    CalledAppend(messages[..j], messages[j..]);
    assert messages[i] in messages[..j] by {
      assert messages[..j][i] == messages[i];
    }
    CalledIs(messages[..j], messages[i], id);
    assert messages[j] in messages[j..] by {
      assert messages[j..][0] == messages[j];
    }
    CalledIs(messages[j..], messages[j], id);
  }

  // No failed turn shares a call with another turn.
  lemma {:induction false} CallsApart(messages: seq<Message>, n: nat, id: string)
    requires Recorded(messages) && n < |messages| && HasCall(messages[n], id)
    ensures id in DroppedCalls(messages) <==> IsFailedTurn(messages[n])
  {
    DroppedIs(messages, id);
    assert messages[n] in messages;
    if id in DroppedCalls(messages) && !IsFailedTurn(messages[n]) {
      var m :| m in messages && IsFailedTurn(m) && HasCall(m, id);
      var k :| 0 <= k < |messages| && messages[k] == m;
      if k < n {
        TwoCallers(messages, k, n, id);
      } else {
        TwoCallers(messages, n, k, id);
      }
    }
  }

  lemma {:induction false} TurnStands(messages: seq<Message>, n: nat)
    requires Recorded(messages) && n < |messages| && !messages[n].ToolResult?
    ensures ReadRecorded(SETTLED, messages[..n]).Owing?
    ensures forall id :: id in ReadRecorded(SETTLED, messages[..n]).ids ==> id in Unanswered(messages)
    ensures forall id :: HasCall(messages[n], id) ==> (id in DroppedCalls(messages) <==> IsFailedTurn(messages[n]))
  {
    RecordedPrefix(messages, n);
    forall id
      ensures id in ReadRecorded(SETTLED, messages[..n]).ids ==> id in Unanswered(messages)
      ensures HasCall(messages[n], id) ==> (id in DroppedCalls(messages) <==> IsFailedTurn(messages[n]))
    {
      OwedForever(messages, n, id);
      if HasCall(messages[n], id) {
        CallsApart(messages, n, id);
      }
    }
  }

  lemma {:induction false} SurvivorsTrack(messages: seq<Message>, n: nat)
    requires Recorded(messages) && n <= |messages|
    ensures Tracks(ReadRecorded(SETTLED, messages[..n]),
                   Read(SETTLED, Filtered(messages[..n], DroppedCalls(messages)), Unanswered(messages)),
                   InFailedTurn(messages[..n]), DroppedCalls(messages), Unanswered(messages))
  {
    if n > 0 {
      var dropped, forgiven, m := DroppedCalls(messages), Unanswered(messages), messages[n - 1];
      var before := messages[..n - 1];
      SurvivorsTrack(messages, n - 1);
      assert messages[..n][..n - 1] == before;
      RecordedPrefix(messages, n);
      ReadSnoc(SETTLED, Filtered(before, dropped), m, forgiven);
      if m.ToolResult? {
        AnsweredIs(messages, m.callId);
        ResultTracks(ReadRecorded(SETTLED, before), Read(SETTLED, Filtered(before, dropped), forgiven),
                     InFailedTurn(before), dropped, forgiven, m);
      } else {
        TurnStands(messages, n - 1);
        TurnTracks(ReadRecorded(SETTLED, before), Read(SETTLED, Filtered(before, dropped), forgiven),
                   InFailedTurn(before), dropped, forgiven, m);
      }
    }
  }

  // Repair makes a legal request of every history a tool loop records with fresh ids,
  // whichever turns failed and whichever results are missing.
  lemma {:induction false} RecordedIsRepaired(messages: seq<Message>)
    requires Recorded(messages)
    ensures Legal(Repaired(messages), {})
  {
    var dropped, forgiven := DroppedCalls(messages), Unanswered(messages);
    SurvivorsTrack(messages, |messages|);
    assert messages[..|messages|] == messages;
    forall id | id in ReadRecorded(SETTLED, messages).ids
      ensures id in forgiven
    {
      OwedForever(messages, |messages|, id);
    }
    NothingKeptOwed(ReadRecorded(SETTLED, messages), Read(SETTLED, Filtered(messages, dropped), forgiven),
                    InFailedTurn(messages), dropped, forgiven);
    RepairedIsLegalExactly(messages);
  }

  // A turn whose call and result are both recorded, and a later turn under the same id that
  // was never answered.
  function ReusedId(turn: AssistantMessage, call: ToolCall): seq<Message> {
    var m := Assistant(turn.(content := [Tool(call)], stopReason := StopReason.ToolUse));
    [m, ToolResult(call.id, call.name, [], false, 0), User([], 0), m, User([], 0)]
  }

  // The first turn's result is taken for the second's: every call has a result somewhere,
  // repair adds none, and the request is not legal.
  lemma {:induction false} ReusedIdIsNotRepaired(turn: AssistantMessage, call: ToolCall)
    ensures var messages := ReusedId(turn, call);
            && Repaired(messages) == messages && AllAnswered(History(messages), messages)
            && !Legal(Repaired(messages), {})
  {
    var messages := ReusedId(turn, call);
    OnlyCall(messages[0], call);
    assert messages[1].callId == call.id;
    OneResultIsEnough(messages, call.id);
    UnansweredInPlace(messages, 3, call.id);
  }

  lemma {:induction false} OneResultIsEnough(messages: seq<Message>, id: string)
    requires forall m :: m in messages ==> !IsFailedTurn(m)
    requires HasResult(messages, id) && forall m, other :: m in messages && HasCall(m, other) ==> other == id
    ensures Repaired(messages) == messages && AllAnswered(History(messages), messages)
  {
    RepairLeavesAlone(messages);
  }

  lemma {:induction false} UnansweredInPlace(messages: seq<Message>, i: nat, id: string)
    requires i + 1 < |messages| && HasCall(messages[i], id) && !messages[i + 1].ToolResult?
    ensures !Legal(messages, {})
  {
    LegalMeans(messages);
    OwedIs(CallsOf(messages[i]), {}, id);
    assert messages[i + 1..RunEnd(messages, i + 1)] == [];
    assert !AnsweredInPlace(messages, i);
  }

  lemma {:induction false} OnlyCall(m: Message, call: ToolCall)
    requires m.Assistant? && m.turn.content == [Tool(call)]
    ensures forall id :: HasCall(m, id) <==> id == call.id
  {
    assert m.turn.content[..0] == [] && Calls([]) == [];
    assert CallsOf(m) == [call];
    assert CallsOf(m)[0].id == call.id;
  }

  // ---------------------------------------------------------------- the later passes

  // `rename` stands for the id rewrite, whatever it does.
  function Renamed(ids: seq<string>, rename: string -> string): (renamed: seq<string>)
    ensures |renamed| == |ids|
  {
    if ids == [] then [] else Renamed(ids[..|ids| - 1], rename) + [rename(ids[|ids| - 1])]
  }

  // The same debts before and after the later passes: `ids` listed, and listed renamed.
  ghost predicate SameDebts(r: Reading, finished: Reading, ids: seq<string>, rename: string -> string) {
    r == Owing(multiset(ids)) && finished == Owing(multiset(Renamed(ids, rename)))
  }

  // A message and what the later passes make of it ask for, or bring, the same results.
  ghost predicate SameRole(m: Message, finished: Message, rename: string -> string) {
    forall k {:trigger Asked(k)} :: Asked(k) ==>
      && (m.ToolResult? <==> finished.ToolResult?)
      && (m.ToolResult? ==> finished.callId == rename(m.callId))
      && (!m.ToolResult? ==>
            && Owed(CallsOf(m), {}) == multiset(IdsOf(CallsOf(m)))
            && Owed(CallsOf(finished), {}) == multiset(Renamed(IdsOf(CallsOf(m)), rename)))
  }

  function IdsOf(calls: seq<ToolCall>): seq<string> {
    if calls == [] then [] else IdsOf(calls[..|calls| - 1]) + [calls[|calls| - 1].id]
  }

  lemma {:induction false} RenamedIs(ids: seq<string>, rename: string -> string)
    ensures forall k :: 0 <= k < |ids| ==> Renamed(ids, rename)[k] == rename(ids[k])
    decreases |ids|
  {
    if ids != [] {
      RenamedIs(ids[..|ids| - 1], rename);
    }
  }

  lemma {:induction false} OwedIds(calls: seq<ToolCall>)
    ensures Owed(calls, {}) == multiset(IdsOf(calls))
    decreases |calls|
  {
    if calls != [] {
      OwedIds(calls[..|calls| - 1]);
    }
  }

  lemma {:induction false} IdsOfRenamed(calls: seq<ToolCall>, finished: seq<ToolCall>, rename: string -> string)
    requires |finished| == |calls| && forall k :: 0 <= k < |calls| ==> finished[k].id == rename(calls[k].id)
    ensures IdsOf(finished) == Renamed(IdsOf(calls), rename)
    decreases |calls|
  {
    if calls != [] {
      IdsOfRenamed(calls[..|calls| - 1], finished[..|calls| - 1], rename);
    }
  }

  lemma {:induction false} FinishedRole(model: Model, m: Message, rename: string -> string)
    requires forall id :: rename(id) == Rewritten(id)
    ensures SameRole(m, Finished(model, m), rename)
  {
    OwedIds(CallsOf(m));
    OwedIds(CallsOf(Finished(model, m)));
    if m.Assistant? {
      CallsOfDowngraded(m.turn.content);
      CallsOfRewritten(m.turn.content);
      CallsOfRewritten(Downgraded(m.turn.content));
      IdsOfRenamed(CallsOf(m), CallsOf(Finished(model, m)), rename);
    }
  }

  lemma {:induction false} TakeAt(ids: seq<string>, k: nat)
    requires k < |ids|
    ensures multiset(ids) - multiset{ids[k]} == multiset(ids[..k] + ids[k + 1..])
  {
    assert ids == ids[..k] + [ids[k]] + ids[k + 1..];
  }

  lemma {:induction false} RenamedRest(ids: seq<string>, k: nat, rename: string -> string)
    requires k < |ids|
    ensures Renamed(ids[..k] + ids[k + 1..], rename) == Renamed(ids, rename)[..k] + Renamed(ids, rename)[k + 1..]
  {
    RenamedIs(ids, rename);
    RenamedIs(ids[..k] + ids[k + 1..], rename);
  }

  lemma {:induction false} PayOne(ids: seq<string>, id: string, rename: string -> string) returns (rest: seq<string>)
    requires id in ids
    ensures multiset(ids) - multiset{id} == multiset(rest)
    ensures rename(id) in multiset(Renamed(ids, rename))
    ensures multiset(Renamed(ids, rename)) - multiset{rename(id)} == multiset(Renamed(rest, rename))
    ensures forall other :: other in rest ==> other in ids
  {
    var k :| 0 <= k < |ids| && ids[k] == id;
    rest := ids[..k] + ids[k + 1..];
    RenamedIs(ids, rename);
    TakeAt(ids, k);
    TakeAt(Renamed(ids, rename), k);
    RenamedRest(ids, k, rename);
    assert Renamed(ids, rename)[k] == rename(id);
  }

  lemma {:induction false} OwnIds(m: Message)
    ensures forall id :: id in IdsOf(CallsOf(m)) ==> HasCall(m, id)
  {
    OwedIds(CallsOf(m));
    forall id | id in IdsOf(CallsOf(m))
      ensures HasCall(m, id)
    {
      assert id in multiset(IdsOf(CallsOf(m)));
      OwedIs(CallsOf(m), {}, id);
    }
  }

  // Where the debts agree before a message they agree after it.
  lemma {:induction false} SameNext(r: Reading, m: Message, renamed: Reading, finished: Message, ids: seq<string>,
                                    rename: string -> string)
    returns (rest: seq<string>)
    requires SameDebts(r, renamed, ids, rename) && SameRole(m, finished, rename)
    requires Next(r, m, {}).Owing?
    ensures SameDebts(Next(r, m, {}), Next(renamed, finished, {}), rest, rename)
    ensures forall id :: id in rest ==> id in ids || HasCall(m, id)
  {
    assert Asked(0);
    if m.ToolResult? {
      rest := PayOne(ids, m.callId, rename);
    } else {
      rest := IdsOf(CallsOf(m));
      OwnIds(m);
      StillOwed(ids);
    }
  }

  // They come to differ only by a result whose id is not owed but is renamed to an owed one's.
  lemma {:induction false} RefusedAlike(r: Reading, m: Message, renamed: Reading, finished: Message, ids: seq<string>,
                                        rename: string -> string)
    requires SameDebts(r, renamed, ids, rename) && SameRole(m, finished, rename)
    requires Next(r, m, {}).Illegal?
    requires m.ToolResult? ==> forall id :: id in ids && rename(id) == rename(m.callId) ==> id == m.callId
    ensures Next(renamed, finished, {}).Illegal?
  {
    assert Asked(0);
    if m.ToolResult? {
      RenamedIs(ids, rename);
      assert forall k :: 0 <= k < |ids| ==> ids[k] in multiset(ids);
    } else {
      StillOwed(ids);
      StillOwed(Renamed(ids, rename));
    }
  }

  lemma {:induction false} StillOwed(ids: seq<string>)
    ensures multiset(ids) == multiset{} <==> ids == []
  {
    if ids != [] {
      assert ids[0] in multiset(ids);
    }
  }

  // Every listed id is called or answered in the history.
  ghost predicate AllMentioned(ids: seq<string>, messages: seq<Message>) {
    forall id :: id in ids ==> Mentions(messages, id)
  }

  ghost predicate Apart(messages: seq<Message>, rename: string -> string) {
    forall a, b :: Mentions(messages, a) && Mentions(messages, b) && rename(a) == rename(b) ==> a == b
  }

  lemma {:induction false} MentionsGrow(before: seq<Message>, m: Message)
    ensures forall id :: Mentions(before, id) ==> Mentions(before + [m], id)
    ensures forall id :: HasCall(m, id) ==> Mentions(before + [m], id)
    ensures m.ToolResult? ==> Mentions(before + [m], m.callId)
  {
    assert m in before + [m];
    forall id
      ensures HasResult(before + [m], id) <==> HasResult(before, id) || (m.ToolResult? && m.callId == id)
    {
      HasResultSnoc(before, m, id);
    }
  }

  lemma {:induction false} ApartBefore(before: seq<Message>, m: Message, rename: string -> string)
    requires Apart(before + [m], rename)
    ensures Apart(before, rename)
  {
    MentionsGrow(before, m);
  }

  lemma {:induction false} DebtorsApart(before: seq<Message>, m: Message, owed: seq<string>, rename: string -> string)
    requires Apart(before + [m], rename) && AllMentioned(owed, before) && m.ToolResult?
    ensures forall id :: id in owed && rename(id) == rename(m.callId) ==> id == m.callId
  {
    MentionsGrow(before, m);
  }

  // `finished` is `messages` with every id renamed.
  ghost predicate SameRoles(messages: seq<Message>, finished: seq<Message>, rename: string -> string) {
    |finished| == |messages| && forall k :: 0 <= k < |messages| ==> SameRole(messages[k], finished[k], rename)
  }

  lemma {:induction false} SameReads(messages: seq<Message>, finished: seq<Message>, rename: string -> string)
    returns (ids: seq<string>)
    requires SameRoles(messages, finished, rename) && Read(SETTLED, messages, {}).Owing?
    ensures SameDebts(Read(SETTLED, messages, {}), Read(SETTLED, finished, {}), ids, rename)
    ensures AllMentioned(ids, messages)
    decreases |messages|
  {
    ids := [];
    if messages != [] {
      var before, m := messages[..|messages| - 1], messages[|messages| - 1];
      assert messages == before + [m];
      var owed := SameReads(before, finished[..|before|], rename);
      ids := SameNext(Read(SETTLED, before, {}), m, Read(SETTLED, finished[..|before|], {}), finished[|before|], owed,
                      rename);
      StillMentioned(before, m, owed, ids);
    }
  }

  lemma {:induction false} StillMentioned(before: seq<Message>, m: Message, owed: seq<string>, ids: seq<string>)
    requires AllMentioned(owed, before) && forall id :: id in ids ==> id in owed || HasCall(m, id)
    ensures AllMentioned(ids, before + [m])
  {
    MentionsGrow(before, m);
  }

  lemma {:induction false} SameRefusal(messages: seq<Message>, finished: seq<Message>, rename: string -> string)
    requires SameRoles(messages, finished, rename) && Apart(messages, rename)
    requires Read(SETTLED, messages, {}).Illegal?
    ensures Read(SETTLED, finished, {}).Illegal?
    decreases |messages|
  {
    var before, m := messages[..|messages| - 1], messages[|messages| - 1];
    assert messages == before + [m];
    ApartBefore(before, m, rename);
    if Read(SETTLED, before, {}).Owing? {
      var owed := SameReads(before, finished[..|before|], rename);
      if m.ToolResult? {
        DebtorsApart(before, m, owed, rename);
      }
      RefusedAlike(Read(SETTLED, before, {}), m, Read(SETTLED, finished[..|before|], {}), finished[|before|], owed,
                   rename);
    } else {
      SameRefusal(before, finished[..|before|], rename);
    }
  }

  lemma {:induction false} FinishedRoles(model: Model, messages: seq<Message>, rename: string -> string)
    requires forall id :: rename(id) == Rewritten(id)
    ensures SameRoles(messages, FinishAll(model, messages), rename)
  {
    FinishAllIs(model, messages);
    forall k | 0 <= k < |messages|
      ensures SameRole(messages[k], FinishAll(model, messages)[k], rename)
    {
      FinishedRole(model, messages[k], rename);
    }
  }

  lemma {:induction false} LegalRenamed(messages: seq<Message>, finished: seq<Message>, rename: string -> string)
    requires SameRoles(messages, finished, rename)
    requires messages != [] ==> (messages[|messages| - 1].Assistant? <==> finished[|messages| - 1].Assistant?)
    ensures Legal(messages, {}) ==> Legal(finished, {})
    ensures Apart(messages, rename) ==> (Legal(finished, {}) <==> Legal(messages, {}))
  {
    if Read(SETTLED, messages, {}).Owing? {
      var ids := SameReads(messages, finished, rename);
      StillOwed(ids);
      StillOwed(Renamed(ids, rename));
    } else if Apart(messages, rename) {
      SameRefusal(messages, finished, rename);
    }
  }

  // The later passes keep a legal request legal, and make none legal where no two ids are
  // rewritten to the same one.
  lemma {:induction false} FinishingKeepsLegal(model: Model, messages: seq<Message>)
    ensures Legal(messages, {}) ==> Legal(FinishAll(model, messages), {})
    ensures RewritesApart(messages) ==> (Legal(FinishAll(model, messages), {}) <==> Legal(messages, {}))
  {
    var rename := id => Rewritten(id);
    FinishedRoles(model, messages, rename);
    FinishAllIs(model, messages);
    if RewritesApart(messages) {
      forall a, b | Mentions(messages, a) && Mentions(messages, b) && rename(a) == rename(b)
        ensures a == b
      {
        assert Rewritten(a) == Rewritten(b);
      }
    }
    LegalRenamed(messages, FinishAll(model, messages), rename);
  }

  lemma {:induction false} RepairMentionsNothing(messages: seq<Message>, id: string)
    requires Mentions(Repaired(messages), id)
    ensures Mentions(messages, id)
  {
    if HasResult(Repaired(messages), id) {
      RepairedMentions(messages, id);
    } else {
      var m :| m in Repaired(messages) && HasCall(m, id);
      var kept := Filtered(messages, DroppedCalls(messages));
      assert kept == History(kept) + [kept[|kept| - 1]];
      MendAllIs(History(kept), Answered(messages), m);
      FilteredIs(messages, DroppedCalls(messages), m);
    }
  }

  // What is sent is a legal request for every recorded history; and in general exactly when
  // the surviving messages are one without their unanswered calls, provided no two ids of
  // the history are rewritten to the same one.
  lemma {:induction false} NormalizedIsLegalExactly(model: Model, messages: seq<Message>)
    requires NormalizedFor(model, messages).Some?
    ensures var out, kept := NormalizedFor(model, messages).value.messages, Filtered(messages, DroppedCalls(messages));
            && (Recorded(messages) ==> Legal(out, {}))
            && (Legal(kept, Unanswered(messages)) ==> Legal(out, {}))
            && (RewritesApart(messages) ==> (Legal(out, {}) <==> Legal(kept, Unanswered(messages))))
  {
    var repaired := Repaired(messages);
    assert NormalizedFor(model, messages).value.messages == FinishAll(model, repaired);
    RepairedIsLegalExactly(messages);
    if Recorded(messages) {
      RecordedIsRepaired(messages);
    }
    if RewritesApart(messages) {
      forall a | Mentions(repaired, a)
        ensures Mentions(messages, a)
      {
        RepairMentionsNothing(messages, a);
      }
      assert RewritesApart(repaired);
    }
    FinishingKeepsLegal(model, repaired);
  }
}
