// The decoder's promises: the events do not depend on how the body was cut into
// chunks, and no event outgrows the cap.
module SseTheorems {
  import opened Prelude
  import opened SseSpec
  import opened Sse

  // ---------------------------------------------------------------- the scan is the fold

  lemma {:induction false} ScanIsFold(decode: Decode, asm: Assembly, s: seq<Byte>)
    ensures var scan := Scan(decode, asm, s);
            var folded := FoldLines(decode, asm, SplitLines(s).lines);
            && folded == Folded(scan.asm, scan.events, scan.failed)
            && (!scan.failed ==> scan.rest == SplitLines(s).tail && scan.endsInCr == EndsWithCr(s))
    decreases |s|
  {
    if !Scan(decode, asm, s).failed {
      ScanKeepsTail(decode, asm, s);
    }
    ScanFolds(decode, asm, s);
  }

  lemma {:induction false} ScanKeepsTail(decode: Decode, asm: Assembly, s: seq<Byte>)
    requires !Scan(decode, asm, s).failed
    ensures Scan(decode, asm, s).rest == SplitLines(s).tail && Scan(decode, asm, s).endsInCr == EndsWithCr(s)
    decreases |s|
  {
    var i := DelimiterIndex(s);
    if i < |s| {
      var next := DelimiterEnd(s, i);
      SplitFirst(s, i, next);
      ScanFirst(decode, asm, s, i, next);
      ScanKeepsTail(decode, ProcessLine(asm, decode(s[..i])).asm, s[next..]);
    }
  }

  lemma {:induction false} ScanFolds(decode: Decode, asm: Assembly, s: seq<Byte>)
    ensures var scan := Scan(decode, asm, s);
            FoldLines(decode, asm, SplitLines(s).lines) == Folded(scan.asm, scan.events, scan.failed)
    decreases |s|
  {
    var i := DelimiterIndex(s);
    if i < |s| {
      var next := DelimiterEnd(s, i);
      SplitFirst(s, i, next);
      ScanFirst(decode, asm, s, i, next);
      var step := ProcessLine(asm, decode(s[..i]));
      if step.Processed? {
        ScanFolds(decode, step.asm, s[next..]);
        FoldFirst(decode, asm, s[..i], SplitLines(s[next..]).lines);
      }
    }
  }

  lemma {:induction false} ScanFirst(decode: Decode, asm: Assembly, s: seq<Byte>, i: nat, next: nat)
    requires i == DelimiterIndex(s) < |s| && next == DelimiterEnd(s, i)
    ensures Scan(decode, asm, s) ==
            Continue(decode, ProcessLine(asm, decode(s[..i])), s[i] == CR && next == i + 1 == |s|, s[next..])
  {
    assert s[0..] == s;
    ScanLine(decode, asm, s, 0, i, next);
  }

  lemma {:induction false} FoldFirst(decode: Decode, asm: Assembly, line: seq<Byte>, lines: seq<seq<Byte>>)
    requires ProcessLine(asm, decode(line)).Processed?
    ensures FoldLines(decode, asm, [line] + lines) ==
            var step := ProcessLine(asm, decode(line));
            var rest := FoldLines(decode, step.asm, lines);
            rest.(events := step.emitted + rest.events)
  {
    assert ([line] + lines)[1..] == lines;
  }

  // ---------------------------------------------------------------- chunk independence

  // Everything fed so far, folded line by line.
  function FoldedSoFar(decode: Decode, fed: seq<Byte>): Folded {
    FoldLines(decode, FRESH, SplitLines(fed).lines)
  }

  // The decoder has been fed `fed` by calls that all succeeded, and they returned `out`.
  predicate Represents(decode: Decode, st: State, fed: seq<Byte>, out: seq<SseEvent>) {
    var folded := FoldedSoFar(decode, fed);
    && out == folded.events
    && st.pendingError == folded.failed
    && (!folded.failed ==>
      && st.asm == folded.asm
      && st.pendingLine == SplitLines(fed).tail
      && st.discardLeadingLf == EndsWithCr(fed))
  }

  lemma {:induction false} InitiallyRepresents(decode: Decode)
    ensures Represents(decode, INITIAL, [], [])
  {
  }

  // Between calls that succeeded, the buffer holds no delimiter.
  lemma {:induction false} PendingLineHasNoDelimiter(decode: Decode, st: State, fed: seq<Byte>, out: seq<SseEvent>)
    requires Represents(decode, st, fed, out) && !st.pendingError
    ensures NoDelimiter(st.pendingLine)
    ensures st.discardLeadingLf ==> st.pendingLine == []
  {
    SplitHasNoDelimiter(fed);
  }

  lemma {:induction false} ContinuationIsTrimmed(decode: Decode, st: State, fed: seq<Byte>, out: seq<SseEvent>,
                                                 chunk: seq<Byte>)
    requires Represents(decode, st, fed, out) && !st.pendingError
    ensures Trimmed(st, chunk) == Continuation(fed, chunk)
    ensures EndsWithCr(fed + chunk) ==
            ((chunk == [] && st.discardLeadingLf) || EndsWithCr(st.pendingLine + Trimmed(st, chunk)))
  {
    SplitHasNoDelimiter(fed);
    assert chunk == [] ==> fed + chunk == fed;
  }

  lemma {:induction false} PushKeeps(decode: Decode, st: State, fed: seq<Byte>, out: seq<SseEvent>, chunk: seq<Byte>)
    requires Represents(decode, st, fed, out) && !st.pendingError
    ensures var (next, r) := Pushed(decode, st, chunk);
            r.Ok? && Represents(decode, next, fed + chunk, out + r.value)
  {
    var s := st.pendingLine + Trimmed(st, chunk);
    ContinuationIsTrimmed(decode, st, fed, out, chunk);
    SplitAppend(fed, chunk);
    FoldAppend(decode, FRESH, SplitLines(fed).lines, SplitLines(s).lines);
    ScanIsFold(decode, st.asm, s);
  }

  // Push every chunk until a call fails, then finish: all the events returned, and
  // whether a call failed.
  function Run(decode: Decode, st: State, chunks: seq<seq<Byte>>): Decoded
    decreases |chunks|
  {
    if chunks == [] then
      match Finished(decode, st)
      case Ok(events) => Decoded(events, false)
      case Err(_) => Decoded([], true)
    else
      var (next, r) := Pushed(decode, st, chunks[0]);
      match r
      case Ok(events) =>
        Returned(events, Run(decode, next, chunks[1..]))
      case Err(_) => Decoded([], true)
  }

  lemma {:induction false} FailureIsFinal(decode: Decode, fed: seq<Byte>, more: seq<Byte>)
    requires FoldedSoFar(decode, fed).failed
    ensures OnePass(decode, fed + more) == Decoded(FoldedSoFar(decode, fed).events, true)
  {
    SplitAppend(fed, more);
    var first, second := SplitLines(fed), SplitLines(SplitLines(fed).tail + Continuation(fed, more));
    var last := if second.tail == [] then second.lines else second.lines + [second.tail];
    assert first.lines + (second.lines + [second.tail]) == (first.lines + second.lines) + [second.tail];
    FoldAppend(decode, FRESH, first.lines, last);
  }

  lemma {:induction false} FinishIsOnePass(decode: Decode, st: State, fed: seq<Byte>, out: seq<SseEvent>)
    requires Represents(decode, st, fed, out) && !st.pendingError
    ensures OnePass(decode, fed) ==
            match Finished(decode, st)
            case Ok(events) => Decoded(out + events, false)
            case Err(_) => Decoded(out, true)
  {
    SplitHasNoDelimiter(fed);
    var split := SplitLines(fed);
    if split.tail != [] {
      assert LastLine(st.pendingLine) == split.tail;
      FoldAppend(decode, FRESH, split.lines, [split.tail]);
      FoldOne(decode, st.asm, split.tail);
    }
  }

  lemma {:induction false} FoldOne(decode: Decode, asm: Assembly, line: seq<Byte>)
    ensures FoldLines(decode, asm, [line]) ==
            match ProcessLine(asm, decode(line))
            case TooLarge(next) => Folded(next, [], true)
            case Processed(next, emitted) => Folded(next, emitted, false)
  {
    assert FoldLines(decode, asm, [line]) == FoldLines(decode, asm, [line] + []);
    if ProcessLine(asm, decode(line)).Processed? {
      FoldFirst(decode, asm, line, []);
      assert ProcessLine(asm, decode(line)).emitted + [] == ProcessLine(asm, decode(line)).emitted;
    }
  }

  function Returned(out: seq<SseEvent>, run: Decoded): Decoded {
    run.(events := out + run.events)
  }

  lemma {:induction false} ReturnedTwice(out: seq<SseEvent>, more: seq<SseEvent>, run: Decoded)
    ensures Returned(out, Returned(more, run)) == Returned(out + more, run)
  {
    assert out + (more + run.events) == (out + more) + run.events;
  }

  lemma {:induction false} RunPush(decode: Decode, st: State, out: seq<SseEvent>, chunks: seq<seq<Byte>>)
    requires chunks != [] && Pushed(decode, st, chunks[0]).1.Ok?
    ensures var (next, r) := Pushed(decode, st, chunks[0]);
            Returned(out, Run(decode, st, chunks)) == Returned(out + r.value, Run(decode, next, chunks[1..]))
  {
    var (next, r) := Pushed(decode, st, chunks[0]);
    ReturnedTwice(out, r.value, Run(decode, next, chunks[1..]));
  }

  lemma {:induction false} RunEnd(decode: Decode, st: State, fed: seq<Byte>, out: seq<SseEvent>, chunks: seq<seq<Byte>>)
    requires Represents(decode, st, fed, out)
    requires st.pendingError || chunks == []
    ensures OnePass(decode, fed + Concat(chunks)) == Returned(out, Run(decode, st, chunks))
  {
    assert out + [] == out;
    if st.pendingError {
      FailureIsFinal(decode, fed, Concat(chunks));
    } else {
      assert fed + Concat(chunks) == fed;
      FinishIsOnePass(decode, st, fed, out);
    }
  }

  lemma {:induction false} RunFrom(decode: Decode, st: State, fed: seq<Byte>, out: seq<SseEvent>,
                                   chunks: seq<seq<Byte>>)
    requires Represents(decode, st, fed, out)
    ensures OnePass(decode, fed + Concat(chunks)) == Returned(out, Run(decode, st, chunks))
    decreases |chunks|
  {
    if st.pendingError || chunks == [] {
      RunEnd(decode, st, fed, out, chunks);
    } else {
      PushKeeps(decode, st, fed, out, chunks[0]);
      RunPush(decode, st, out, chunks);
      var (next, r) := Pushed(decode, st, chunks[0]);
      RunFrom(decode, next, fed + chunks[0], out + r.value, chunks[1..]);
      assert fed + Concat(chunks) == (fed + chunks[0]) + Concat(chunks[1..]);
    }
  }

  // Whatever the chunks - empty ones and cuts inside a CRLF included - the decoder
  // returns the events of the one-pass decoding of their concatenation, and fails
  // exactly when that fails.
  lemma {:induction false} ChunkIndependence(decode: Decode, chunks: seq<seq<Byte>>)
    ensures Run(decode, INITIAL, chunks) == OnePass(decode, Concat(chunks))
  {
    InitiallyRepresents(decode);
    RunFrom(decode, INITIAL, [], [], chunks);
    assert [] + Concat(chunks) == Concat(chunks);
    assert [] + Run(decode, INITIAL, chunks).events == Run(decode, INITIAL, chunks).events;
  }

  // What has been returned before the body ends is final, whatever follows.
  lemma {:induction false} EarlyEventsAreFinal(decode: Decode, st: State, fed: seq<Byte>, out: seq<SseEvent>,
                                               more: seq<Byte>)
    requires Represents(decode, st, fed, out)
    ensures out <= OnePass(decode, fed + more).events
  {
    RunFrom(decode, st, fed, out, [more]);
    assert Concat([more]) == more + Concat<Byte>([]);
    assert Concat([more]) == more;
  }

  // ---------------------------------------------------------------- line endings

  datatype Ending = EndLf | EndCrLf | EndCr

  function EndingBytes(e: Ending): seq<Byte> {
    match e
    case EndLf => [LF]
    case EndCrLf => [CR, LF]
    case EndCr => [CR]
  }

  datatype Line = Line(text: seq<Byte>, ending: Ending)

  function Written(lines: seq<Line>, tail: seq<Byte>): seq<Byte> {
    if lines == [] then tail
    else lines[0].text + EndingBytes(lines[0].ending) + Written(lines[1..], tail)
  }

  function Texts(lines: seq<Line>): seq<seq<Byte>> {
    if lines == [] then [] else [lines[0].text] + Texts(lines[1..])
  }

  // No line holds a delimiter, and no CR is followed by an LF that would join it.
  predicate Unambiguous(lines: seq<Line>, tail: seq<Byte>) {
    if lines == [] then NoDelimiter(tail)
    else
      && NoDelimiter(lines[0].text)
      && (lines[0].ending == EndCr ==> !(Written(lines[1..], tail) != [] && Written(lines[1..], tail)[0] == LF))
      && Unambiguous(lines[1..], tail)
  }

  // Splitting undoes writing, whatever mixture of the three line endings was written.
  lemma {:induction false} SplitUndoesWrite(lines: seq<Line>, tail: seq<Byte>)
    requires Unambiguous(lines, tail)
    ensures SplitLines(Written(lines, tail)) == Split(Texts(lines), tail)
    decreases |lines|
  {
    if lines == [] {
      DelimiterIndexIs(tail, |tail|);
    } else {
      var text, ending, rest := lines[0].text, EndingBytes(lines[0].ending), Written(lines[1..], tail);
      var s := text + ending + rest;
      var next := |text| + |ending|;
      DelimiterIndexIs(s, |text|);
      assert s[..|text|] == text;
      assert next < |s| ==> s[next] == rest[0];
      assert DelimiterEnd(s, |text|) == next;
      assert s[next..] == rest;
      SplitFirst(s, |text|, next);
      SplitUndoesWrite(lines[1..], tail);
    }
  }

  // Changing line endings changes nothing.
  lemma {:induction false} LineEndingIndependence(decode: Decode, xs: seq<Line>, ys: seq<Line>, tail: seq<Byte>)
    requires Unambiguous(xs, tail) && Unambiguous(ys, tail) && Texts(xs) == Texts(ys)
    ensures OnePass(decode, Written(xs, tail)) == OnePass(decode, Written(ys, tail))
  {
    SplitUndoesWrite(xs, tail);
    SplitUndoesWrite(ys, tail);
  }

  // ---------------------------------------------------------------- round trip

  function FieldLine(name: Text, value: Text): Text {
    name + [COLON, SPACE] + value
  }

  lemma {:induction false} FieldLineReads(name: Text, value: Text)
    requires name == EVENT_FIELD || name == DATA_FIELD
    ensures var line := FieldLine(name, value);
            line != [] && line[0] != COLON && FieldName(line) == name && FieldValue(line) == value
  {
    var line := FieldLine(name, value);
    ColonIndexIs(line, |name|);
    assert line[..|name|] == name;
    assert line[|name| + 2..] == value;
  }

  lemma {:induction false} ColonIndexIs(line: Text, i: nat)
    requires i <= |line|
    requires forall k :: 0 <= k < i ==> line[k] != COLON
    requires i < |line| ==> line[i] == COLON
    ensures ColonIndex(line) == i
  {
    if ColonIndex(line) < i {
      assert false;
    }
  }

  function DataFieldLines(dataLines: seq<Text>): seq<seq<Byte>> {
    if dataLines == [] then [] else [FieldLine(DATA_FIELD, dataLines[0])] + DataFieldLines(dataLines[1..])
  }

  // The lines an event is written as: its name, its data lines, a blank line.
  function EventLines(name: Option<Text>, dataLines: seq<Text>): seq<seq<Byte>> {
    (if name.Some? then [FieldLine(EVENT_FIELD, name.value)] else []) + DataFieldLines(dataLines) + [[]]
  }

  // The decoding leaves these lines as they are (as it does any valid UTF-8).
  predicate Clean(decode: Decode, lines: seq<seq<Byte>>) {
    forall line :: line in lines ==> decode(line) == line
  }

  lemma {:induction false} DataFieldLinesRead(decode: Decode, asm: Assembly, dataLines: seq<Text>)
    requires Exact(asm) && Clean(decode, DataFieldLines(dataLines))
    requires |Join(asm.dataLines + dataLines)| <= MAX_EVENT_DATA_BYTES
    ensures FoldLines(decode, asm, DataFieldLines(dataLines)) ==
            Folded(Assembly(asm.event, asm.dataLines + dataLines, |Join(asm.dataLines + dataLines)|), [], false)
    decreases |dataLines|
  {
    if dataLines == [] {
      assert asm.dataLines + dataLines == asm.dataLines;
    } else {
      var line, rest := FieldLine(DATA_FIELD, dataLines[0]), dataLines[1..];
      FieldLineReads(DATA_FIELD, dataLines[0]);
      StepAccounting(asm, line);
      assert asm.dataLines + dataLines == (asm.dataLines + [dataLines[0]]) + rest;
      JoinGrows(asm.dataLines + [dataLines[0]], rest);
      var next := ProcessLine(asm, line).asm;
      assert decode(line) == line;
      FoldFirst(decode, asm, line, DataFieldLines(rest));
      DataFieldLinesRead(decode, next, rest);
    }
  }

  lemma {:induction false} JoinGrows(xs: seq<Text>, ys: seq<Text>)
    ensures |Join(xs)| <= |Join(xs + ys)|
    decreases |ys|
  {
    if ys == [] {
      assert xs + ys == xs;
    } else {
      var most := ys[..|ys| - 1];
      assert xs + ys == (xs + most) + [ys[|ys| - 1]];
      JoinSnoc(xs + most, ys[|ys| - 1]);
      JoinGrows(xs, most);
    }
  }

  // Writing an event and decoding the lines gives the event back, from any state
  // in which no event is pending.
  lemma {:induction false} EventRoundTrip(decode: Decode, name: Option<Text>, dataLines: seq<Text>)
    requires dataLines != [] && |Join(dataLines)| <= MAX_EVENT_DATA_BYTES
    requires Clean(decode, EventLines(name, dataLines))
    ensures FoldLines(decode, FRESH, EventLines(name, dataLines)) ==
            Folded(FRESH, [SseEvent(name, Join(dataLines))], false)
  {
    var header := if name.Some? then [FieldLine(EVENT_FIELD, name.value)] else [];
    var body := DataFieldLines(dataLines) + [[]];
    var lines := EventLines(name, dataLines);
    assert lines == header + body;
    assert forall line :: line in body ==> line in lines;
    assert name.Some? ==> header[0] in lines;
    NameLineReads(decode, name);
    FoldAppend(decode, FRESH, header, body);
    BodyRoundTrip(decode, name, dataLines);
  }

  lemma {:induction false} NameLineReads(decode: Decode, name: Option<Text>)
    requires name.Some? ==> decode(FieldLine(EVENT_FIELD, name.value)) == FieldLine(EVENT_FIELD, name.value)
    ensures FoldLines(decode, FRESH, if name.Some? then [FieldLine(EVENT_FIELD, name.value)] else []) ==
            Folded(FRESH.(event := name), [], false)
  {
    if name.Some? {
      FieldLineReads(EVENT_FIELD, name.value);
      FoldOne(decode, FRESH, FieldLine(EVENT_FIELD, name.value));
    }
  }

  lemma {:induction false} BodyRoundTrip(decode: Decode, name: Option<Text>, dataLines: seq<Text>)
    requires dataLines != [] && |Join(dataLines)| <= MAX_EVENT_DATA_BYTES
    requires Clean(decode, DataFieldLines(dataLines) + [[]])
    ensures FoldLines(decode, FRESH.(event := name), DataFieldLines(dataLines) + [[]]) ==
            Folded(FRESH, [SseEvent(name, Join(dataLines))], false)
  {
    var fields, asm := DataFieldLines(dataLines), FRESH.(event := name);
    assert forall line :: line in fields ==> line in fields + [[]];
    assert [] in fields + [[]];
    assert [] + dataLines == dataLines;
    DataFieldLinesRead(decode, asm, dataLines);
    FoldAppend(decode, asm, fields, [[]]);
    FoldOne(decode, Assembly(name, dataLines, |Join(dataLines)|), []);
  }

  // ---------------------------------------------------------------- the cap

  // The running count is the length the joined data will have.
  predicate Exact(asm: Assembly) {
    asm.dataLen == |Join(asm.dataLines)|
  }

  lemma {:induction false} JoinSnoc(lines: seq<Text>, value: Text)
    ensures |Join(lines + [value])| == |Join(lines)| + (if lines == [] then 0 else 1) + |value|
  {
    assert (lines + [value])[..|lines|] == lines;
  }

  // An error arises exactly when one more data line would exceed the cap.
  lemma {:induction false} StepAccounting(asm: Assembly, line: Text)
    requires Exact(asm)
    ensures ProcessLine(asm, line).TooLarge? <==>
            IsDataLine(line) && |Join(asm.dataLines + [FieldValue(line)])| > MAX_EVENT_DATA_BYTES
    ensures ProcessLine(asm, line).Processed? ==> Exact(ProcessLine(asm, line).asm)
  {
    if IsDataLine(line) {
      JoinSnoc(asm.dataLines, FieldValue(line));
    }
  }

  lemma {:induction false} FoldStaysExact(decode: Decode, asm: Assembly, lines: seq<seq<Byte>>)
    requires Exact(asm)
    ensures var folded := FoldLines(decode, asm, lines); !folded.failed ==> Exact(folded.asm)
    decreases |lines|
  {
    if lines != [] {
      StepAccounting(asm, decode(lines[0]));
      var step := ProcessLine(asm, decode(lines[0]));
      if step.Processed? {
        FoldStaysExact(decode, step.asm, lines[1..]);
      }
    }
  }

  // In every state reached without an error the count is exact.
  lemma {:induction false} CountIsExact(decode: Decode, st: State, fed: seq<Byte>, out: seq<SseEvent>)
    requires Represents(decode, st, fed, out) && !st.pendingError
    ensures Exact(st.asm)
  {
    FoldStaysExact(decode, FRESH, SplitLines(fed).lines);
  }

  // What survives even an error: the count never falls short, and what has been
  // collected fits.
  predicate Bounded(asm: Assembly) {
    && |Join(asm.dataLines)| <= asm.dataLen
    && |Join(asm.dataLines)| <= MAX_EVENT_DATA_BYTES
  }

  predicate Fits(events: seq<SseEvent>) {
    forall e :: e in events ==> |e.data| <= MAX_EVENT_DATA_BYTES
  }

  lemma {:induction false} StepStaysBounded(asm: Assembly, line: Text)
    requires Bounded(asm)
    ensures Bounded(ProcessLine(asm, line).asm)
    ensures ProcessLine(asm, line).Processed? ==> Fits(ProcessLine(asm, line).emitted)
  {
    if IsDataLine(line) {
      JoinSnoc(asm.dataLines, FieldValue(line));
    }
  }

  lemma {:induction false} FoldStaysBounded(decode: Decode, asm: Assembly, lines: seq<seq<Byte>>)
    requires Bounded(asm)
    ensures var folded := FoldLines(decode, asm, lines); Bounded(folded.asm) && Fits(folded.events)
    decreases |lines|
  {
    if lines != [] {
      StepStaysBounded(asm, decode(lines[0]));
      var step := ProcessLine(asm, decode(lines[0]));
      if step.Processed? {
        FoldStaysBounded(decode, step.asm, lines[1..]);
      }
    }
  }

  lemma {:induction false} PushStaysBounded(decode: Decode, st: State, chunk: seq<Byte>)
    requires Bounded(st.asm)
    ensures var (next, r) := Pushed(decode, st, chunk);
            Bounded(next.asm) && (r.Ok? ==> Fits(r.value))
  {
    if !st.pendingError {
      var s := st.pendingLine + Trimmed(st, chunk);
      ScanIsFold(decode, st.asm, s);
      FoldStaysBounded(decode, st.asm, SplitLines(s).lines);
    }
  }

  lemma {:induction false} FinishStaysBounded(decode: Decode, st: State)
    requires Bounded(st.asm)
    ensures var r := Finished(decode, st); r.Ok? ==> Fits(r.value)
  {
    if !st.pendingError && st.pendingLine != [] {
      StepStaysBounded(st.asm, decode(LastLine(st.pendingLine)));
    }
  }

  // Keep pushing whatever the calls return.
  function PushAll(decode: Decode, st: State, chunks: seq<seq<Byte>>): (State, seq<Outcome>)
    decreases |chunks|
  {
    if chunks == [] then (st, [])
    else
      var (next, r) := Pushed(decode, st, chunks[0]);
      var (last, rs) := PushAll(decode, next, chunks[1..]);
      (last, [r] + rs)
  }

  // No call ever returns an oversized event, not even after an error.
  lemma {:induction false} NoOversizedEvent(decode: Decode, st: State, chunks: seq<seq<Byte>>)
    requires Bounded(st.asm)
    ensures var (last, rs) := PushAll(decode, st, chunks);
            && Bounded(last.asm)
            && (forall r :: r in rs && r.Ok? ==> Fits(r.value))
            && (Finished(decode, last).Ok? ==> Fits(Finished(decode, last).value))
    decreases |chunks|
  {
    if chunks == [] {
      FinishStaysBounded(decode, st);
    } else {
      PushStaysBounded(decode, st, chunks[0]);
      NoOversizedEvent(decode, Pushed(decode, st, chunks[0]).0, chunks[1..]);
    }
  }
}
