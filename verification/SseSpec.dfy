// What a server-sent event stream means: one pass over the whole body.
//
// Sections 9.2.5 and 9.2.6 of the WHATWG HTML Standard, with the two deviations
// the decoder makes on purpose: a leading byte order mark is not stripped, and an
// event still open at the end of the body is dispatched.
module SseSpec {
  import opened Prelude

  // A byte is taken as a bare number: nothing here depends on its range, so every
  // statement holds for the bytes 0..255 in particular.
  type Byte = int

  // The UTF-8 bytes of a decoded line. Every test the decoder makes on a line is
  // a test for an ASCII character, so it can be made on the bytes.
  type Text = seq<Byte>

  const LF: Byte := 10
  const CR: Byte := 13
  const SPACE: Byte := 32
  const COLON: Byte := 58

  const EVENT_FIELD: Text := [101, 118, 101, 110, 116]
  const DATA_FIELD: Text := [100, 97, 116, 97]

  const MAX_EVENT_DATA_BYTES: nat := 8 * 1024 * 1024

  datatype SseEvent = SseEvent(event: Option<Text>, data: Text)

  // ---------------------------------------------------------------- lines

  predicate IsDelimiter(b: Byte) {
    b == CR || b == LF
  }

  // The index of the first line delimiter, or the length when there is none.
  function DelimiterIndex(s: seq<Byte>): (i: nat)
    ensures i <= |s|
    ensures forall k :: 0 <= k < i ==> !IsDelimiter(s[k])
    ensures i < |s| ==> IsDelimiter(s[i])
  {
    if s == [] then 0
    else if IsDelimiter(s[0]) then 0
    else 1 + DelimiterIndex(s[1..])
  }

  // The end of the delimiter at `i`: CRLF is one delimiter.
  function DelimiterEnd(s: seq<Byte>, i: nat): (next: nat)
    requires i < |s|
    ensures i < next <= |s|
  {
    if s[i] == CR && i + 1 < |s| && s[i + 1] == LF then i + 2 else i + 1
  }

  // Terminated lines, and what follows the last delimiter.
  datatype Split = Split(lines: seq<seq<Byte>>, tail: seq<Byte>)

  function SplitLines(s: seq<Byte>): Split
    decreases |s|
  {
    var i := DelimiterIndex(s);
    if i == |s| then
      Split([], s)
    else
      var rest := SplitLines(s[DelimiterEnd(s, i)..]);
      Split([s[..i]] + rest.lines, rest.tail)
  }

  // ---------------------------------------------------------------- fields

  // The event being assembled.
  datatype Assembly = Assembly(event: Option<Text>, dataLines: seq<Text>, dataLen: nat)

  const FRESH: Assembly := Assembly(None, [], 0)

  datatype LineStep =
    | Processed(asm: Assembly, emitted: seq<SseEvent>)
    | TooLarge(asm: Assembly)

  // `data` lines joined by LF.
  function Join(lines: seq<Text>): Text {
    if lines == [] then []
    else if |lines| == 1 then lines[0]
    else Join(lines[..|lines| - 1]) + [LF] + lines[|lines| - 1]
  }

  // Dispatch the assembled event if it collected a `data` line.
  function Flush(asm: Assembly): (r: (Assembly, seq<SseEvent>))
    ensures |r.1| <= 1
  {
    if asm.dataLines == [] then
      (asm.(event := None), [])
    else
      (FRESH, [SseEvent(asm.event, Join(asm.dataLines))])
  }

  // The index of the first colon, or the length when there is none.
  function ColonIndex(line: Text): (i: nat)
    ensures i <= |line|
    ensures forall k :: 0 <= k < i ==> line[k] != COLON
    ensures i < |line| ==> line[i] == COLON
  {
    if line == [] then 0
    else if line[0] == COLON then 0
    else 1 + ColonIndex(line[1..])
  }

  function FieldName(line: Text): Text {
    line[..ColonIndex(line)]
  }

  // The value after the colon, without one leading space.
  function FieldValue(line: Text): Text {
    var i := ColonIndex(line);
    if i == |line| then []
    else if i + 1 < |line| && line[i + 1] == SPACE then line[i + 2..]
    else line[i + 1..]
  }

  function Separator(asm: Assembly): nat {
    if asm.dataLines == [] then 0 else 1
  }

  predicate IsDataLine(line: Text) {
    line != [] && line[0] != COLON && FieldName(line) == DATA_FIELD
  }

  function ProcessLine(asm: Assembly, line: Text): LineStep {
    if line == [] then
      var (next, events) := Flush(asm);
      Processed(next, events)
    else if line[0] == COLON then
      Processed(asm, [])
    else if FieldName(line) == EVENT_FIELD then
      Processed(asm.(event := Some(FieldValue(line))), [])
    else if FieldName(line) == DATA_FIELD then
      var value := FieldValue(line);
      var counted := asm.(dataLen := asm.dataLen + Separator(asm) + |value|);
      if counted.dataLen > MAX_EVENT_DATA_BYTES then TooLarge(counted)
      else Processed(counted.(dataLines := asm.dataLines + [value]), [])
    else
      Processed(asm, [])
  }

  // ---------------------------------------------------------------- one pass

  // Lossy UTF-8 decoding of one whole line.
  type Decode = seq<Byte> -> Text

  datatype Folded = Folded(asm: Assembly, events: seq<SseEvent>, failed: bool)

  // Process lines in order, stopping at the first oversized event.
  function FoldLines(decode: Decode, asm: Assembly, lines: seq<seq<Byte>>): Folded
    decreases |lines|
  {
    if lines == [] then
      Folded(asm, [], false)
    else
      match ProcessLine(asm, decode(lines[0]))
      case TooLarge(next) => Folded(next, [], true)
      case Processed(next, emitted) =>
        var rest := FoldLines(decode, next, lines[1..]);
        rest.(events := emitted + rest.events)
  }

  // The events a body decodes to, up to the first oversized event.
  datatype Decoded = Decoded(events: seq<SseEvent>, failed: bool)

  function OnePass(decode: Decode, body: seq<Byte>): Decoded {
    var split := SplitLines(body);
    var lines := if split.tail == [] then split.lines else split.lines + [split.tail];
    var folded := FoldLines(decode, FRESH, lines);
    if folded.failed then Decoded(folded.events, true)
    else Decoded(folded.events + Flush(folded.asm).1, false)
  }

  // ---------------------------------------------------------------- facts

  lemma {:induction false} DelimiterIndexIs(s: seq<Byte>, i: nat)
    requires i <= |s|
    requires forall k :: 0 <= k < i ==> !IsDelimiter(s[k])
    requires i < |s| ==> IsDelimiter(s[i])
    ensures DelimiterIndex(s) == i
  {
    if DelimiterIndex(s) < i {
      assert false;
    }
  }

  predicate NoDelimiter(s: seq<Byte>) {
    forall k :: 0 <= k < |s| ==> !IsDelimiter(s[k])
  }

  predicate EndsWithCr(s: seq<Byte>) {
    s != [] && s[|s| - 1] == CR
  }

  // A chunk that continues a body ending in CR loses the LF of a split CRLF.
  function Continuation(before: seq<Byte>, chunk: seq<Byte>): seq<Byte> {
    if EndsWithCr(before) && chunk != [] && chunk[0] == LF then chunk[1..] else chunk
  }

  // No line and no tail holds a delimiter.
  lemma {:induction false} SplitHasNoDelimiter(s: seq<Byte>)
    ensures NoDelimiter(SplitLines(s).tail)
    ensures forall line :: line in SplitLines(s).lines ==> NoDelimiter(line)
    ensures EndsWithCr(s) ==> SplitLines(s).tail == []
    decreases |s|
  {
    var i := DelimiterIndex(s);
    if i < |s| {
      SplitHasNoDelimiter(s[DelimiterEnd(s, i)..]);
    }
  }

  function Resume(first: Split, second: Split): Split {
    Split(first.lines + second.lines, second.tail)
  }

  // One terminated line at the front of a body.
  lemma {:induction false} SplitFirst(s: seq<Byte>, i: nat, next: nat)
    requires i == DelimiterIndex(s) < |s| && next == DelimiterEnd(s, i)
    ensures SplitLines(s) == Resume(Split([s[..i]], []), SplitLines(s[next..]))
  {
  }

  lemma {:induction false} ResumeAssociative(x: Split, y: Split, z: Split)
    ensures Resume(x, Resume(y, z)) == Resume(Resume(x, y), z)
  {
    assert x.lines + (y.lines + z.lines) == (x.lines + y.lines) + z.lines;
  }

  // A body that ends in the CR of its only delimiter.
  lemma {:induction false} SplitAppendAfterCr(a: seq<Byte>, b: seq<Byte>)
    requires a != [] && DelimiterIndex(a) == |a| - 1 && EndsWithCr(a)
    ensures SplitLines(a) == Split([a[..|a| - 1]], [])
    ensures SplitLines(a + b) == Resume(SplitLines(a), SplitLines(Continuation(a, b)))
  {
    var i := |a| - 1;
    SplitFirst(a, i, |a|);
    assert a[|a|..] == [];
    DelimiterIndexIs(a + b, i);
    assert (a + b)[..i] == a[..i];
    SplitFirst(a + b, i, DelimiterEnd(a + b, i));
    assert (a + b)[DelimiterEnd(a + b, i)..] == Continuation(a, b);
  }

  // Splitting can resume after any prefix of the body.
  lemma {:induction false} SplitAppend(a: seq<Byte>, b: seq<Byte>)
    ensures SplitLines(a + b) == Resume(SplitLines(a), SplitLines(SplitLines(a).tail + Continuation(a, b)))
    decreases |a|, 1
  {
    var i := DelimiterIndex(a);
    if i == |a| {
      assert [] + SplitLines(a + b).lines == SplitLines(a + b).lines;
    } else if i == |a| - 1 && a[i] == CR {
      SplitAppendAfterCr(a, b);
      assert [] + Continuation(a, b) == Continuation(a, b);
    } else {
      SplitAppendInside(a, b, i);
    }
  }

  // The first delimiter of `a`, seen in `a + b`, when it does not depend on `b`.
  lemma {:induction false} FirstDelimiterInside(a: seq<Byte>, b: seq<Byte>, i: nat)
    requires i == DelimiterIndex(a) < |a|
    requires a[i] == CR ==> i + 1 < |a|
    ensures DelimiterIndex(a + b) == i && (a + b)[..i] == a[..i]
    ensures DelimiterEnd(a + b, i) == DelimiterEnd(a, i)
    ensures (a + b)[DelimiterEnd(a, i)..] == a[DelimiterEnd(a, i)..] + b
    ensures Continuation(a, b) == Continuation(a[DelimiterEnd(a, i)..], b)
  {
    DelimiterIndexIs(a + b, i);
    DropInside(a, b, DelimiterEnd(a, i));
    SameEnding(a, DelimiterEnd(a, i), i);
  }

  lemma {:induction false} DropInside(a: seq<Byte>, b: seq<Byte>, n: nat)
    requires n <= |a|
    ensures (a + b)[n..] == a[n..] + b
  {
  }

  // Whether a body ends in CR does not depend on its first line.
  lemma {:induction false} SameEnding(a: seq<Byte>, next: nat, i: nat)
    requires i < |a| && next == DelimiterEnd(a, i)
    requires a[i] == CR ==> i + 1 < |a|
    requires IsDelimiter(a[i])
    ensures EndsWithCr(a[next..]) <==> EndsWithCr(a)
  {
    if next < |a| {
      assert a[next..][|a| - next - 1] == a[|a| - 1];
    }
  }

  lemma {:induction false} SplitAppendInside(a: seq<Byte>, b: seq<Byte>, i: nat)
    requires i == DelimiterIndex(a) < |a|
    requires a[i] == CR ==> i + 1 < |a|
    ensures SplitLines(a + b) == Resume(SplitLines(a), SplitLines(SplitLines(a).tail + Continuation(a, b)))
    decreases |a|, 0
  {
    var next := DelimiterEnd(a, i);
    FirstDelimiterInside(a, b, i);
    SplitFirst(a, i, next);
    SplitFirst(a + b, i, next);
    SplitAppend(a[next..], b);
    var first := SplitLines(a[next..]);
    ResumeAssociative(Split([a[..i]], []), first, SplitLines(first.tail + Continuation(a, b)));
  }

  // Folding can resume after any prefix of the lines.
  lemma {:induction false} FoldAppend(decode: Decode, asm: Assembly, xs: seq<seq<Byte>>, ys: seq<seq<Byte>>)
    ensures FoldLines(decode, asm, xs + ys) ==
            var first := FoldLines(decode, asm, xs);
            if first.failed then first
            else
              var second := FoldLines(decode, first.asm, ys);
              second.(events := first.events + second.events)
    decreases |xs|
  {
    if xs == [] {
      assert xs + ys == ys;
    } else {
      assert (xs + ys)[1..] == xs[1..] + ys;
      var step := ProcessLine(asm, decode(xs[0]));
      if step.Processed? {
        FoldAppend(decode, step.asm, xs[1..], ys);
        var first := FoldLines(decode, step.asm, xs[1..]);
        var second := FoldLines(decode, first.asm, ys);
        assert step.emitted + (first.events + second.events) == (step.emitted + first.events) + second.events;
      }
    }
  }
}
