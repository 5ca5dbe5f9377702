// The incremental decoder: bytes go in as they arrive, events come out.
module Sse {
  import opened Prelude
  import opened SseSpec

  // A single event's accumulated data exceeded the cap.
  datatype SseError = EventTooLarge(limit: nat)

  type Outcome = Result<seq<SseEvent>, SseError>

  const TOO_LARGE: Outcome := Err(EventTooLarge(MAX_EVENT_DATA_BYTES))

  // ---------------------------------------------------------------- as values

  // The value of a decoder object.
  datatype State = State(
    pendingLine: seq<Byte>,
    discardLeadingLf: bool,
    asm: Assembly,
    pendingError: bool)

  const INITIAL: State := State([], false, FRESH, false)

  // What one scan over the buffer leaves: everything up to and including the last
  // complete line is consumed, unless a line fails.
  datatype Scanned = Scanned(asm: Assembly, events: seq<SseEvent>, failed: bool, rest: seq<Byte>, endsInCr: bool)

  function Scan(decode: Decode, asm: Assembly, s: seq<Byte>): Scanned
    decreases |s|
  {
    var i := DelimiterIndex(s);
    if i == |s| then
      Scanned(asm, [], false, s, false)
    else
      var next := DelimiterEnd(s, i);
      var endsInCr := s[i] == CR && next == i + 1 == |s|;
      match ProcessLine(asm, decode(s[..i]))
      case TooLarge(failed) => Scanned(failed, [], true, s[next..], endsInCr)
      case Processed(after, emitted) =>
        After(emitted, endsInCr, Scan(decode, after, s[next..]))
  }

  function After(events: seq<SseEvent>, endsInCr: bool, scan: Scanned): Scanned {
    scan.(events := events + scan.events, endsInCr := endsInCr || scan.endsInCr)
  }

  lemma {:induction false} AfterAfter(e1: seq<SseEvent>, c1: bool, e2: seq<SseEvent>, c2: bool, scan: Scanned)
    ensures After(e1, c1, After(e2, c2, scan)) == After(e1 + e2, c1 || c2, scan)
  {
    assert e1 + (e2 + scan.events) == (e1 + e2) + scan.events;
  }

  // What a scan amounts to once its first line has been processed.
  function Continue(decode: Decode, step: LineStep, endsInCr: bool, rest: seq<Byte>): Scanned {
    match step
    case TooLarge(failed) => Scanned(failed, [], true, rest, endsInCr)
    case Processed(after, emitted) => After(emitted, endsInCr, Scan(decode, after, rest))
  }

  // One turn of the scan: the line at `from` in the buffer.
  lemma {:induction false} ScanLine(decode: Decode, asm: Assembly, buffer: seq<Byte>, from: nat, at: nat, next: nat)
    requires from <= at < |buffer| && at == from + DelimiterIndex(buffer[from..])
    requires next == from + DelimiterEnd(buffer[from..], at - from)
    ensures next <= |buffer|
    ensures Scan(decode, asm, buffer[from..]) ==
            Continue(decode, ProcessLine(asm, decode(buffer[from..at])),
                     buffer[at] == CR && next == at + 1 == |buffer|, buffer[next..])
  {
    SliceOfRest(buffer, from, at, next);
    ScanStep(decode, asm, buffer[from..], at - from, next - from);
  }

  lemma {:induction false} SliceOfRest(buffer: seq<Byte>, from: nat, at: nat, next: nat)
    requires from <= at < next <= |buffer|
    ensures buffer[from..][..at - from] == buffer[from..at] && buffer[from..][next - from..] == buffer[next..]
  {
  }

  lemma {:induction false} ScanStep(decode: Decode, asm: Assembly, s: seq<Byte>, i: nat, next: nat)
    requires i == DelimiterIndex(s) < |s| && next == DelimiterEnd(s, i)
    ensures Scan(decode, asm, s) ==
            Continue(decode, ProcessLine(asm, decode(s[..i])), s[i] == CR && next == i + 1 == |s|, s[next..])
  {
  }

  // The chunk without the LF that completes the CRLF begun by the previous chunk.
  function Trimmed(st: State, chunk: seq<Byte>): seq<Byte> {
    if st.discardLeadingLf && chunk != [] && chunk[0] == LF then chunk[1..] else chunk
  }

  // The state and the result one `push` leaves.
  function Pushed(decode: Decode, st: State, chunk: seq<Byte>): (State, Outcome) {
    if st.pendingError then
      (st.(pendingError := false), TOO_LARGE)
    else
      var scan := Scan(decode, st.asm, st.pendingLine + Trimmed(st, chunk));
      var flag := chunk == [] && st.discardLeadingLf;
      (State(scan.rest, flag || scan.endsInCr, scan.asm, scan.failed), Ok(scan.events))
  }

  // The unterminated last line, without a trailing CR.
  function LastLine(pending: seq<Byte>): seq<Byte>
    requires pending != []
  {
    if pending[|pending| - 1] == CR then pending[..|pending| - 1] else pending
  }

  // The result of `finish`.
  function Finished(decode: Decode, st: State): Outcome {
    if st.pendingError then TOO_LARGE
    else if st.pendingLine == [] then Ok(Flush(st.asm).1)
    else
      match ProcessLine(st.asm, decode(LastLine(st.pendingLine)))
      case TooLarge(_) => TOO_LARGE
      case Processed(after, emitted) => Ok(emitted + Flush(after).1)
  }

  // ---------------------------------------------------------------- the object

  class SseDecoder {
    const decode: Decode
    var pendingLine: seq<Byte>
    var discardLeadingLf: bool
    var event: Option<Text>
    var dataLines: seq<Text>
    var dataLen: nat
    var pendingError: Option<SseError>

    ghost predicate Valid()
      reads this
    {
      pendingError.Some? ==> pendingError.value == EventTooLarge(MAX_EVENT_DATA_BYTES)
    }

    function Asm(): Assembly
      reads this
    {
      Assembly(event, dataLines, dataLen)
    }

    function View(): State
      reads this
    {
      State(pendingLine, discardLeadingLf, Asm(), pendingError.Some?)
    }

    constructor (decode: Decode)
      ensures Valid() && View() == INITIAL && this.decode == decode
    {
      this.decode := decode;
      pendingLine, discardLeadingLf := [], false;
      event, dataLines, dataLen := None, [], 0;
      pendingError := None;
    }

    method Push(chunk: seq<Byte>) returns (r: Outcome)
      requires Valid()
      modifies this
      ensures Valid()
      ensures (View(), r) == Pushed(decode, old(View()), chunk)
    {
      if pendingError.Some? {
        r := Err(pendingError.value);
        pendingError := None;
        return;
      }
      var bytes := chunk;
      if discardLeadingLf && chunk != [] && chunk[0] == LF {
        discardLeadingLf := false;
        bytes := chunk[1..];
      } else if chunk != [] {
        discardLeadingLf := false;
      }
      pendingLine := pendingLine + bytes;
      ghost var scan;
      var events: seq<SseEvent>;
      events, scan := DrainLines();
      r := Ok(events);
    }

    // Process every complete line of the buffer with a cursor, then drop what was
    // consumed in one step.
    method DrainLines() returns (events: seq<SseEvent>, ghost scan: Scanned)
      requires pendingError == None
      modifies this
      ensures Valid()
      ensures scan == Scan(decode, old(Asm()), old(pendingLine))
      ensures events == scan.events
      ensures View() == State(scan.rest, old(discardLeadingLf) || scan.endsInCr, scan.asm, scan.failed)
    {
      ghost var flag, seenCr := discardLeadingLf, false;
      scan := Scan(decode, Asm(), pendingLine);
      events := [];
      var consumed := 0;
      assert pendingLine[0..] == pendingLine;
      while consumed + DelimiterIndex(pendingLine[consumed..]) < |pendingLine|
        invariant consumed <= |pendingLine| && pendingLine == old(pendingLine)
        invariant pendingError == None
        invariant discardLeadingLf == (flag || seenCr)
        invariant scan == After(events, seenCr, Scan(decode, Asm(), pendingLine[consumed..]))
        decreases |pendingLine| - consumed
      {
        var processed;
        ghost var endsInCr, seenBefore := false, seenCr;
        consumed, processed, endsInCr := TakeLine(consumed);
        seenCr := seenCr || endsInCr;
        match processed {
          case Ok(emitted) =>
            AfterAfter(events, seenBefore, emitted, endsInCr, Scan(decode, Asm(), pendingLine[consumed..]));
            events := events + emitted;
          case Err(error) =>
            pendingError := Some(error);
            break;
        }
      }
      assert events + [] == events;
      pendingLine := pendingLine[consumed..];
    }

    // One turn of that loop: the line at `consumed` and its delimiter.
    method TakeLine(consumed: nat) returns (next: nat, r: Outcome, ghost endsInCr: bool)
      requires consumed <= |pendingLine| && consumed + DelimiterIndex(pendingLine[consumed..]) < |pendingLine|
      modifies `discardLeadingLf, `event, `dataLines, `dataLen
      ensures consumed < next <= |pendingLine|
      ensures discardLeadingLf == (old(discardLeadingLf) || endsInCr)
      ensures var scan := Scan(decode, old(Asm()), pendingLine[consumed..]);
              match r
              case Ok(emitted) => scan == After(emitted, endsInCr, Scan(decode, Asm(), pendingLine[next..]))
              case Err(_) => r == TOO_LARGE && scan == Scanned(Asm(), [], true, pendingLine[next..], endsInCr)
    {
      ghost var before := Asm();
      var delimiterPos := consumed + DelimiterIndex(pendingLine[consumed..]);
      var line := decode(pendingLine[consumed..delimiterPos]);
      var delimiter := pendingLine[delimiterPos];
      next := delimiterPos + 1;
      endsInCr := false;
      if delimiter == CR {
        if next < |pendingLine| && pendingLine[next] == LF {
          next := next + 1;
        } else if next == |pendingLine| {
          discardLeadingLf := true;
          endsInCr := true;
        }
      }
      ScanLine(decode, before, pendingLine, consumed, delimiterPos, next);
      r := ProcessLineInPlace(line);
    }

    // Signal the end of the body. The decoder is not used again.
    method Finish() returns (r: Outcome)
      requires Valid()
      modifies this
      ensures r == Finished(decode, old(View()))
    {
      if pendingError.Some? {
        r := Err(pendingError.value);
        pendingError := None;
        return;
      }
      var events: seq<SseEvent> := [];
      if pendingLine != [] {
        var line := pendingLine;
        pendingLine := [];
        if line[|line| - 1] == CR {
          line := line[..|line| - 1];
        }
        var processed := ProcessLineInPlace(decode(line));
        if processed.Err? {
          return processed;
        }
        events := events + processed.value;
        assert events == processed.value;
      }
      var last := FlushInPlace();
      assert [] + last == last;
      r := Ok(events + last);
    }

    method ProcessLineInPlace(line: Text) returns (r: Outcome)
      modifies `event, `dataLines, `dataLen
      ensures match ProcessLine(old(Asm()), line)
              case TooLarge(after) => Asm() == after && r == TOO_LARGE
              case Processed(after, emitted) => Asm() == after && r == Ok(emitted)
    {
      if line == [] {
        var emitted := FlushInPlace();
        return Ok(emitted);
      }
      if line[0] == COLON {
        return Ok([]);
      }
      var field, value := FieldName(line), FieldValue(line);
      if field == EVENT_FIELD {
        event := Some(value);
      } else if field == DATA_FIELD {
        var separator := if dataLines == [] then 0 else 1;
        dataLen := dataLen + separator + |value|;
        if dataLen > MAX_EVENT_DATA_BYTES {
          return Err(EventTooLarge(MAX_EVENT_DATA_BYTES));
        }
        dataLines := dataLines + [value];
      }
      r := Ok([]);
    }

    method FlushInPlace() returns (emitted: seq<SseEvent>)
      modifies `event, `dataLines, `dataLen
      ensures (Asm(), emitted) == Flush(old(Asm()))
    {
      if dataLines == [] {
        event := None;
        return [];
      }
      dataLen := 0;
      emitted := [SseEvent(event, Join(dataLines))];
      event := None;
      dataLines := [];
    }
  }
}
