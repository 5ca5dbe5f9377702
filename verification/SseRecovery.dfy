// What a decoder can still do after a line was refused: whether any later input brings an
// event again depends on which line that was.
module SseRecovery {
  import opened Prelude
  import opened SseSpec
  import opened Sse
  import opened SseTheorems

  // ---------------------------------------------------------------- a refused first line

  // An oversized first data line leaves a count no later line brings down: the
  // blank line that would reset it does so only for an event that collected data.
  predicate Poisoned(asm: Assembly) {
    asm.dataLines == [] && asm.dataLen > MAX_EVENT_DATA_BYTES
  }

  lemma {:induction false} PoisonIsPermanent(decode: Decode, st: State, chunks: seq<seq<Byte>>)
    requires Poisoned(st.asm)
    ensures var (last, rs) := PushAll(decode, st, chunks);
            && Poisoned(last.asm)
            && (forall r :: r in rs && r.Ok? ==> r.value == [])
            && (Finished(decode, last).Ok? ==> Finished(decode, last).value == [])
    decreases |chunks|
  {
    if chunks != [] {
      if !st.pendingError {
        ScanPoisoned(decode, st.asm, st.pendingLine + Trimmed(st, chunks[0]));
      }
      PoisonIsPermanent(decode, Pushed(decode, st, chunks[0]).0, chunks[1..]);
    }
  }

  lemma {:induction false} ScanPoisoned(decode: Decode, asm: Assembly, s: seq<Byte>)
    requires Poisoned(asm)
    ensures Poisoned(Scan(decode, asm, s).asm) && Scan(decode, asm, s).events == []
    decreases |s|
  {
    var i := DelimiterIndex(s);
    if i < |s| {
      ScanFirst(decode, asm, s, i, DelimiterEnd(s, i));
      var step := ProcessLine(asm, decode(s[..i]));
      if step.Processed? {
        ScanPoisoned(decode, step.asm, s[DelimiterEnd(s, i)..]);
      }
    }
  }

  // ---------------------------------------------------------------- which line was refused

  // A refused line poisons the decoder exactly when the event has no data line yet.
  lemma {:induction false} RefusedLinePoisons(asm: Assembly, line: Text)
    requires Exact(asm) && ProcessLine(asm, line).TooLarge?
    ensures Poisoned(ProcessLine(asm, line).asm) <==> asm.dataLines == []
  {
    StepAccounting(asm, line);
  }

  // Line `k` is the first refused, and leaves `after`.
  ghost predicate RefusedAt(decode: Decode, asm: Assembly, lines: seq<seq<Byte>>, k: nat, after: Assembly) {
    k < |lines| && forall a {:trigger Asked(a)} :: Asked(a) ==>
      && !FoldLines(decode, asm, lines[..k]).failed
      && ProcessLine(FoldLines(decode, asm, lines[..k]).asm, decode(lines[k])) == TooLarge(after)
  }

  // The scan that fails stops at a line: all before it were accepted.
  lemma {:induction false} ScanFailsAt(decode: Decode, asm: Assembly, s: seq<Byte>) returns (k: nat)
    requires Scan(decode, asm, s).failed
    ensures RefusedAt(decode, asm, SplitLines(s).lines, k, Scan(decode, asm, s).asm)
    decreases |s|
  {
    assert Asked(0);
    var i := DelimiterIndex(s);
    var next := DelimiterEnd(s, i);
    SplitFirst(s, i, next);
    ScanFirst(decode, asm, s, i, next);
    var lines, rest := SplitLines(s).lines, SplitLines(s[next..]).lines;
    assert lines == [s[..i]] + rest;
    var step := ProcessLine(asm, decode(s[..i]));
    if step.TooLarge? {
      k := 0;
    } else {
      var more := ScanFailsAt(decode, step.asm, s[next..]);
      k := more + 1;
      assert lines[..k] == [s[..i]] + rest[..more];
      FoldFirst(decode, asm, s[..i], rest[..more]);
    }
  }

  // The first call that leaves an error has refused one line of all that was fed, with an
  // exact count before it.
  lemma {:induction false} FailureHasALine(decode: Decode, st: State, fed: seq<Byte>, out: seq<SseEvent>,
                                           chunk: seq<Byte>)
    returns (k: nat)
    requires Represents(decode, st, fed, out) && !st.pendingError && Pushed(decode, st, chunk).0.pendingError
    ensures var lines := SplitLines(fed + chunk).lines;
            && RefusedAt(decode, FRESH, lines, k, Pushed(decode, st, chunk).0.asm)
            && Exact(FoldLines(decode, FRESH, lines[..k]).asm)
  {
    var s := st.pendingLine + Trimmed(st, chunk);
    FailedChunk(decode, st, fed, out, chunk);
    k := FailureInParts(decode, st.asm, SplitLines(fed).lines, s, SplitLines(fed + chunk).lines);
  }

  lemma {:induction false} FailureInParts(decode: Decode, asm: Assembly, past: seq<seq<Byte>>, s: seq<Byte>,
                                          lines: seq<seq<Byte>>)
    returns (k: nat)
    requires lines == past + SplitLines(s).lines
    requires !FoldLines(decode, FRESH, past).failed && FoldLines(decode, FRESH, past).asm == asm
    requires Scan(decode, asm, s).failed
    ensures RefusedAt(decode, FRESH, lines, k, Scan(decode, asm, s).asm)
    ensures Exact(FoldLines(decode, FRESH, lines[..k]).asm)
  {
    var at := ScanFailsAt(decode, asm, s);
    k := |past| + at;
    LineOfWhole(decode, past, SplitLines(s).lines, at, lines, Scan(decode, asm, s).asm);
  }

  lemma {:induction false} FailedChunk(decode: Decode, st: State, fed: seq<Byte>, out: seq<SseEvent>, chunk: seq<Byte>)
    requires Represents(decode, st, fed, out) && !st.pendingError && Pushed(decode, st, chunk).0.pendingError
    ensures var s, past := st.pendingLine + Trimmed(st, chunk), SplitLines(fed).lines;
            && SplitLines(fed + chunk).lines == past + SplitLines(s).lines
            && !FoldLines(decode, FRESH, past).failed && FoldLines(decode, FRESH, past).asm == st.asm
            && Scan(decode, st.asm, s).failed && Scan(decode, st.asm, s).asm == Pushed(decode, st, chunk).0.asm
  {
    ContinuationIsTrimmed(decode, st, fed, out, chunk);
    SplitAppend(fed, chunk);
  }

  // Lines folded in two parts.
  lemma {:induction false} LineOfWhole(decode: Decode, past: seq<seq<Byte>>, now: seq<seq<Byte>>, at: nat,
                                       lines: seq<seq<Byte>>, after: Assembly)
    requires lines == past + now && !FoldLines(decode, FRESH, past).failed
    requires RefusedAt(decode, FoldLines(decode, FRESH, past).asm, now, at, after)
    ensures RefusedAt(decode, FRESH, lines, |past| + at, after)
    ensures Exact(FoldLines(decode, FRESH, lines[..|past| + at]).asm)
  {
    assert Asked(0);
    assert lines[..|past| + at] == past + now[..at];
    FoldAppend(decode, FRESH, past, now[..at]);
    FoldStaysExact(decode, FRESH, past + now[..at]);
  }

  // ---------------------------------------------------------------- recovering

  predicate Emits(decode: Decode, st: State, chunks: seq<seq<Byte>>) {
    exists k :: 0 <= k < |PushAll(decode, st, chunks).1| && PushAll(decode, st, chunks).1[k].Ok? &&
      PushAll(decode, st, chunks).1[k].value != []
  }

  // Some continuation brings an event.
  ghost predicate CanEmit(decode: Decode, st: State) {
    exists chunks :: Emits(decode, st, chunks)
  }

  // A buffer whose last line is blank.
  predicate EndsBlank(s: seq<Byte>) {
    s == [LF] || (|s| >= 2 && s[|s| - 1] == LF && s[|s| - 2] == LF)
  }

  lemma {:induction false} BlankStays(s: seq<Byte>, i: nat, next: nat)
    requires EndsBlank(s) && i == DelimiterIndex(s) && 0 < i
    ensures i < |s| && DelimiterEnd(s, i) < |s| && EndsBlank(s[DelimiterEnd(s, i)..])
  {
    assert IsDelimiter(s[|s| - 2]);
  }

  // With a data line collected, such a buffer dispatches an event, or another line of it is
  // refused before that.
  lemma {:induction false} BlankDispatches(decode: Decode, asm: Assembly, s: seq<Byte>)
    requires asm.dataLines != [] && EndsBlank(s) && decode([]) == []
    ensures var scan := Scan(decode, asm, s);
            scan.events != [] || (scan.failed && scan.asm.dataLines != [] && EndsBlank(scan.rest) && |scan.rest| < |s|)
    decreases |s|
  {
    var i := DelimiterIndex(s);
    assert IsDelimiter(s[|s| - 1]);
    var next := DelimiterEnd(s, i);
    ScanFirst(decode, asm, s, i, next);
    assert i == 0 ==> s[..i] == [];
    if decode(s[..i]) != [] {
      BlankStays(s, i, next);
      var step := ProcessLine(asm, decode(s[..i]));
      if step.Processed? {
        BlankDispatches(decode, step.asm, s[next..]);
      }
    }
  }

  lemma {:induction false} EmitsFirst(decode: Decode, st: State, chunk: seq<Byte>, rest: seq<seq<Byte>>)
    ensures var (next, r) := Pushed(decode, st, chunk);
            (r.Ok? && r.value != []) || Emits(decode, next, rest) ==> Emits(decode, st, [chunk] + rest)
  {
    var (next, r) := Pushed(decode, st, chunk);
    assert ([chunk] + rest)[1..] == rest;
    var rs := PushAll(decode, next, rest).1;
    assert PushAll(decode, st, [chunk] + rest).1 == [r] + rs;
    if r.Ok? && r.value != [] {
      assert ([r] + rs)[0] == r;
    } else if Emits(decode, next, rest) {
      var k :| 0 <= k < |rs| && rs[k].Ok? && rs[k].value != [];
      assert ([r] + rs)[k + 1] == rs[k];
    }
  }

  // Pushing nothing, again and again, works such a buffer off.
  lemma {:induction false} BlankRecovers(decode: Decode, st: State) returns (chunks: seq<seq<Byte>>)
    requires st.asm.dataLines != [] && EndsBlank(st.pendingLine) && decode([]) == []
    ensures Emits(decode, st, chunks)
    decreases |st.pendingLine|, st.pendingError
  {
    var (next, r) := Pushed(decode, st, []);
    chunks := [];
    if st.pendingError {
      chunks := BlankRecovers(decode, next);
    } else {
      assert st.pendingLine + Trimmed(st, []) == st.pendingLine;
      BlankDispatches(decode, st.asm, st.pendingLine);
      if r.value == [] {
        chunks := BlankRecovers(decode, next);
      }
    }
    EmitsFirst(decode, st, [], chunks);
    chunks := [[]] + chunks;
  }

  lemma {:induction false} DataLineRecovers(decode: Decode, st: State) returns (chunks: seq<seq<Byte>>)
    requires st.asm.dataLines != [] && decode([]) == []
    ensures Emits(decode, st, chunks)
    decreases st.pendingError
  {
    if st.pendingError {
      chunks := DataLineRecovers(decode, Pushed(decode, st, []).0);
      EmitsFirst(decode, st, [], chunks);
      chunks := [[]] + chunks;
    } else {
      var blank := if st.discardLeadingLf then [LF, LF, LF] else [LF, LF];
      var s := st.pendingLine + Trimmed(st, blank);
      assert Trimmed(st, blank) == [LF, LF];
      assert s[|s| - 1] == LF && s[|s| - 2] == LF;
      BlankDispatches(decode, st.asm, s);
      var (next, r) := Pushed(decode, st, blank);
      chunks := [];
      if r.value == [] {
        chunks := BlankRecovers(decode, next);
      }
      EmitsFirst(decode, st, blank, chunks);
      chunks := [blank] + chunks;
    }
  }

  // After a line was refused some continuation brings an event exactly when the line was
  // not the event's first data line.
  lemma {:induction false} RecoversExactly(decode: Decode, st: State, asm: Assembly, line: Text)
    requires Exact(asm) && ProcessLine(asm, line) == TooLarge(st.asm) && decode([]) == []
    ensures CanEmit(decode, st) <==> asm.dataLines != []
  {
    RefusedLinePoisons(asm, line);
    if asm.dataLines != [] {
      var chunks := DataLineRecovers(decode, st);
    } else {
      forall chunks
        ensures !Emits(decode, st, chunks)
      {
        PoisonIsPermanent(decode, st, chunks);
      }
    }
  }

  // For every decoder: the call that first fails leaves it able to bring another event
  // exactly when the refused line had a data line of its event before it.
  lemma {:induction false} FirstFailureRecovers(decode: Decode, st: State, fed: seq<Byte>, out: seq<SseEvent>,
                                                chunk: seq<Byte>)
    returns (k: nat)
    requires Represents(decode, st, fed, out) && !st.pendingError && Pushed(decode, st, chunk).0.pendingError &&
             decode([]) == []
    ensures var lines := SplitLines(fed + chunk).lines;
            && k < |lines|
            && ProcessLine(FoldLines(decode, FRESH, lines[..k]).asm, decode(lines[k])).TooLarge?
            && (CanEmit(decode, Pushed(decode, st, chunk).0) <==>
                FoldLines(decode, FRESH, lines[..k]).asm.dataLines != [])
  {
    k := FailureHasALine(decode, st, fed, out, chunk);
    LineRecovers(decode, Pushed(decode, st, chunk).0, SplitLines(fed + chunk).lines, k);
  }

  lemma {:induction false} LineRecovers(decode: Decode, st: State, lines: seq<seq<Byte>>, k: nat)
    requires RefusedAt(decode, FRESH, lines, k, st.asm) && decode([]) == []
    requires Exact(FoldLines(decode, FRESH, lines[..k]).asm)
    ensures ProcessLine(FoldLines(decode, FRESH, lines[..k]).asm, decode(lines[k])).TooLarge?
    ensures CanEmit(decode, st) <==> FoldLines(decode, FRESH, lines[..k]).asm.dataLines != []
  {
    assert Asked(0);
    RecoversExactly(decode, st, FoldLines(decode, FRESH, lines[..k]).asm, decode(lines[k]));
  }

  // An oversized first line, pushed into a new decoder: the next call reports the error, and
  // no input after that brings an event.
  lemma {:induction false} OversizedFirstLine(decode: Decode, value: Text, chunks: seq<seq<Byte>>)
    requires |value| > MAX_EVENT_DATA_BYTES && NoDelimiter(value) &&
             decode(FieldLine(DATA_FIELD, value)) == FieldLine(DATA_FIELD, value)
    ensures var st := Pushed(decode, INITIAL, FieldLine(DATA_FIELD, value) + [LF]).0;
            && st.pendingError && Poisoned(st.asm) && Pushed(decode, st, []).1.Err? && !Emits(decode, st, chunks)
  {
    OversizedIsRefused(decode, FieldLine(DATA_FIELD, value), value);
    PoisonIsPermanent(decode, Pushed(decode, INITIAL, FieldLine(DATA_FIELD, value) + [LF]).0, chunks);
  }

  lemma {:induction false} OversizedIsRefused(decode: Decode, line: Text, value: Text)
    requires line == FieldLine(DATA_FIELD, value) && |value| > MAX_EVENT_DATA_BYTES && NoDelimiter(value) &&
             decode(line) == line
    ensures var st := Pushed(decode, INITIAL, line + [LF]).0;
            st.pendingError && Poisoned(st.asm)
  {
    assert NoDelimiter(line);
    ScanOneLine(decode, line);
    OversizedLine(line, value);
    assert [] + Trimmed(INITIAL, line + [LF]) == line + [LF];
  }

  lemma {:induction false} ScanOneLine(decode: Decode, line: seq<Byte>)
    requires NoDelimiter(line)
    ensures Scan(decode, FRESH, line + [LF]) == Continue(decode, ProcessLine(FRESH, decode(line)), false, [])
  {
    var body := line + [LF];
    DelimiterIndexIs(body, |line|);
    assert body[..|line|] == line && body[|body|..] == [];
    ScanStep(decode, FRESH, body, |line|, |body|);
  }

  lemma {:induction false} OversizedLine(line: Text, value: Text)
    requires line == FieldLine(DATA_FIELD, value) && |value| > MAX_EVENT_DATA_BYTES
    ensures ProcessLine(FRESH, line) == TooLarge(FRESH.(dataLen := |value|))
  {
    FieldLineReads(DATA_FIELD, value);
  }
}
