// The truncation-tolerant parser behind streamed tool-call arguments, and the strict
// parser it is measured against.
module PartialJson {
  import opened Prelude
  import opened JsonNumbers
  import opened JsonText
  import opened JsonLexing

  // ---------------------------------------------------------------- tolerant, as functions

  // How a construct ended while parsing.
  datatype Outcome =
    | Done(value: Value)
    | Cut(value: Value)
    | Empty
    | Bad

  // An outcome and the position it leaves.
  datatype Parsed = Parsed(outcome: Outcome, pos: nat)

  // A `\uXXXX` sequence after its `\u`, combining surrogate pairs.
  function UnicodeEscape(s: string, pos: nat): (r: (Option<char>, nat))
    requires pos <= |s|
    ensures pos <= r.1 <= |s|
  {
    var (first, p) := Hex4(s, pos);
    match first
    case None => (None, p)
    case Some(code) =>
      if IsHigh(code) then
        if IsUnicodeStart(s, p) && Hex4(s, p + 2).0.Some? && IsLow(Hex4(s, p + 2).0.value) then
          (Some(Combine(code, Hex4(s, p + 2).0.value)), Hex4(s, p + 2).1)
        else
          (Some(REPLACEMENT), p)
      else if IsLow(code) then
        (Some(REPLACEMENT), p)
      else
        (Some(code as char), p)
  }

  // The rest of a string after its opening quote, with `out` read so far.
  function StringFrom(s: string, pos: nat, out: string): (r: Parsed)
    requires pos <= |s|
    ensures pos <= r.pos <= |s|
    ensures !r.outcome.Empty?
    ensures r.outcome.Done? || r.outcome.Cut? ==> r.outcome.value.String?
    ensures r.outcome.Cut? ==> r.pos == |s|
    decreases |s| - pos
  {
    if pos == |s| then Parsed(Cut(String(out)), pos)
    else if s[pos] == '"' then Parsed(Done(String(out)), pos + 1)
    else if s[pos] == '\\' then
      if pos + 1 == |s| then Parsed(Cut(String(out)), pos + 1)
      else if s[pos + 1] == 'u' then
        var r := UnicodeEscape(s, pos + 2);
        if r.0.Some? then StringFrom(s, r.1, out + [r.0.value])
        else if r.1 == |s| then Parsed(Cut(String(out)), r.1)
        else Parsed(Bad, r.1)
      else
        StringFrom(s, pos + 2, out + [Unescape(s[pos + 1])])
    else
      StringFrom(s, pos + 1, out + [s[pos]])
  }

  // A literal, of which `word` is still to come.
  function LiteralFrom(s: string, pos: nat, word: string, value: Value): (r: Parsed)
    requires pos <= |s|
    ensures pos <= r.pos <= |s|
    decreases |s| - pos
  {
    if word == "" then Parsed(Done(value), pos)
    else if pos == |s| then Parsed(Cut(value), pos)
    else if s[pos] == word[0] then LiteralFrom(s, pos + 1, word[1..], value)
    else Parsed(Bad, pos + 1)
  }

  predicate Strippable(c: char) {
    c == '.' || c == '+' || c == '-' || c == 'e' || c == 'E'
  }

  // The best a number token cut by the end of the text can give.
  function BestNumber(token: string): Outcome
    decreases |token|
  {
    if ValidNumber(token) then Cut(Number(token))
    else if token == "" then Empty
    else if Strippable(token[|token| - 1]) then BestNumber(token[..|token| - 1])
    else Bad
  }

  function NumberAt(s: string, pos: nat): (r: Parsed)
    requires pos <= |s|
    ensures pos <= r.pos <= |s|
  {
    var end := NumberEnd(s, pos);
    var token := s[pos..end];
    if ValidNumber(token) then Parsed(Done(Number(token)), end)
    else if end < |s| then Parsed(Bad, end)
    else Parsed(BestNumber(token), end)
  }

  function ValueAt(s: string, pos: nat): (r: Parsed)
    requires pos <= |s|
    ensures pos <= r.pos <= |s|
    decreases |s| - pos, 1
  {
    var p := SkipWs(s, pos);
    if p == |s| then Parsed(Empty, p)
    else if s[p] == '{' then ObjectFrom(s, p + 1, map[])
    else if s[p] == '[' then ArrayFrom(s, p + 1, [])
    else if s[p] == '"' then StringFrom(s, p + 1, "")
    else if s[p] == 't' then LiteralFrom(s, p, "true", Bool(true))
    else if s[p] == 'f' then LiteralFrom(s, p, "false", Bool(false))
    else if s[p] == 'n' then LiteralFrom(s, p, "null", Null)
    else if s[p] == '-' || Digit(s[p]) then NumberAt(s, p)
    else Parsed(Bad, p)
  }

  // The rest of an object, with `members` read so far.
  function ObjectFrom(s: string, pos: nat, members: map<string, Value>): (r: Parsed)
    requires pos <= |s|
    ensures pos <= r.pos <= |s|
    ensures !r.outcome.Empty?
    decreases |s| - pos, 2
  {
    var p := SkipWs(s, pos);
    if p == |s| then Parsed(Cut(Object(members)), p)
    else if s[p] == '}' then Parsed(Done(Object(members)), p + 1)
    else if s[p] != '"' then Parsed(Bad, p)
    else
      var key := StringFrom(s, p + 1, "");
      if key.outcome.Done? then MemberFrom(s, SkipWs(s, key.pos), members, key.outcome.value.text)
      else if key.outcome.Cut? then Parsed(Cut(Object(members)), key.pos)
      else Parsed(Bad, key.pos)
  }

  // The rest of a member whose name is `key`: the colon, the value and what follows.
  function MemberFrom(s: string, pos: nat, members: map<string, Value>, key: string): (r: Parsed)
    requires pos <= |s|
    ensures pos <= r.pos <= |s|
    ensures !r.outcome.Empty?
    decreases |s| - pos, 0
  {
    if pos == |s| then Parsed(Cut(Object(members)), pos)
    else if s[pos] != ':' then Parsed(Bad, pos + 1)
    else
      var v := ValueAt(s, pos + 1);
      if v.outcome.Done? then
        var so := members[key := v.outcome.value];
        var p := SkipWs(s, v.pos);
        if p == |s| then Parsed(Cut(Object(so)), p)
        else if s[p] == ',' then ObjectFrom(s, p + 1, so)
        else if s[p] == '}' then Parsed(Done(Object(so)), p + 1)
        else Parsed(Bad, p + 1)
      else if v.outcome.Cut? then Parsed(Cut(Object(members[key := v.outcome.value])), v.pos)
      else if v.outcome.Empty? then Parsed(Cut(Object(members)), v.pos)
      else Parsed(Bad, v.pos)
  }

  // The rest of an array, with `items` read so far.
  function ArrayFrom(s: string, pos: nat, items: seq<Value>): (r: Parsed)
    requires pos <= |s|
    ensures pos <= r.pos <= |s|
    ensures !r.outcome.Empty?
    decreases |s| - pos, 2
  {
    var p := SkipWs(s, pos);
    if p == |s| then Parsed(Cut(Array(items)), p)
    else if s[p] == ']' then Parsed(Done(Array(items)), p + 1)
    else
      var v := ValueAt(s, p);
      if v.outcome.Done? then
        var so := items + [v.outcome.value];
        var q := SkipWs(s, v.pos);
        if q == |s| then Parsed(Cut(Array(so)), q)
        else if s[q] == ',' then ArrayFrom(s, q + 1, so)
        else if s[q] == ']' then Parsed(Done(Array(so)), q + 1)
        else Parsed(Bad, q + 1)
      else if v.outcome.Cut? then Parsed(Cut(Array(items + [v.outcome.value])), v.pos)
      else if v.outcome.Empty? then Parsed(Cut(Array(items)), v.pos)
      else Parsed(Bad, v.pos)
  }

  // ---------------------------------------------------------------- strict

  // RFC 8259 parsing, refusing unpaired surrogates as serde_json does.
  datatype Verdict = Reject | Accept(value: Value, pos: nat)

  function StrictEscape(s: string, pos: nat): (r: Option<(char, nat)>)
    requires pos <= |s|
    ensures r.Some? ==> pos <= r.value.1 <= |s|
  {
    var (first, p) := Hex4(s, pos);
    if first == None || IsLow(first.value) then None
    else if IsHigh(first.value) then
      if IsUnicodeStart(s, p) && Hex4(s, p + 2).0.Some? && IsLow(Hex4(s, p + 2).0.value) then
        Some((Combine(first.value, Hex4(s, p + 2).0.value), Hex4(s, p + 2).1))
      else None
    else Some((first.value as char, p))
  }

  function StrictString(s: string, pos: nat, out: string): (r: Verdict)
    requires pos <= |s|
    ensures r.Accept? ==> pos < r.pos <= |s| && r.value.String?
    decreases |s| - pos
  {
    if pos == |s| || s[pos] as int < 0x20 then Reject
    else if s[pos] == '"' then Accept(String(out), pos + 1)
    else if s[pos] == '\\' then
      if pos + 1 == |s| then Reject
      else if s[pos + 1] == 'u' then
        var r := StrictEscape(s, pos + 2);
        if r.None? then Reject else StrictString(s, r.value.1, out + [r.value.0])
      else if SimpleEscape(s[pos + 1]) then StrictString(s, pos + 2, out + [Unescape(s[pos + 1])])
      else Reject
    else StrictString(s, pos + 1, out + [s[pos]])
  }

  function StrictLiteral(s: string, pos: nat, word: string, value: Value): (r: Verdict)
    requires pos <= |s|
    ensures r.Accept? ==> pos <= r.pos <= |s|
    decreases |s| - pos
  {
    if word == "" then Accept(value, pos)
    else if pos < |s| && s[pos] == word[0] then StrictLiteral(s, pos + 1, word[1..], value)
    else Reject
  }

  function StrictNumber(s: string, pos: nat): (r: Verdict)
    requires pos <= |s|
    ensures r.Accept? ==> pos <= r.pos <= |s|
  {
    var end := NumberEnd(s, pos);
    if ValidNumber(s[pos..end]) then Accept(Number(s[pos..end]), end) else Reject
  }

  function StrictValue(s: string, pos: nat): (r: Verdict)
    requires pos <= |s|
    ensures r.Accept? ==> pos <= r.pos <= |s|
    decreases |s| - pos, 1
  {
    var p := SkipWs(s, pos);
    if p == |s| then Reject
    else if s[p] == '{' then
      var q := SkipWs(s, p + 1);
      if q < |s| && s[q] == '}' then Accept(Object(map[]), q + 1) else StrictMembers(s, p + 1, map[])
    else if s[p] == '[' then
      var q := SkipWs(s, p + 1);
      if q < |s| && s[q] == ']' then Accept(Array([]), q + 1) else StrictElems(s, p + 1, [])
    else if s[p] == '"' then StrictString(s, p + 1, "")
    else if s[p] == 't' then StrictLiteral(s, p, "true", Bool(true))
    else if s[p] == 'f' then StrictLiteral(s, p, "false", Bool(false))
    else if s[p] == 'n' then StrictLiteral(s, p, "null", Null)
    else if s[p] == '-' || Digit(s[p]) then StrictNumber(s, p)
    else Reject
  }

  // One or more elements and the closing bracket.
  function StrictElems(s: string, pos: nat, items: seq<Value>): (r: Verdict)
    requires pos <= |s|
    ensures r.Accept? ==> pos <= r.pos <= |s|
    decreases |s| - pos, 2
  {
    var v := StrictValue(s, pos);
    if v.Reject? then Reject
    else
      var so, p := items + [v.value], SkipWs(s, v.pos);
      if p == |s| then Reject
      else if s[p] == ',' then StrictElems(s, p + 1, so)
      else if s[p] == ']' then Accept(Array(so), p + 1)
      else Reject
  }

  // One or more members and the closing brace.
  function StrictMembers(s: string, pos: nat, members: map<string, Value>): (r: Verdict)
    requires pos <= |s|
    ensures r.Accept? ==> pos <= r.pos <= |s|
    decreases |s| - pos, 2
  {
    var p := SkipWs(s, pos);
    if p == |s| || s[p] != '"' then Reject
    else
      var name := StrictString(s, p + 1, "");
      if name.Reject? then Reject else StrictMember(s, SkipWs(s, name.pos), members, name.value.text)
  }

  // The rest of a member whose name is `key`.
  function StrictMember(s: string, pos: nat, members: map<string, Value>, key: string): (r: Verdict)
    requires pos <= |s|
    ensures r.Accept? ==> pos <= r.pos <= |s|
    decreases |s| - pos, 0
  {
    if pos == |s| || s[pos] != ':' then Reject
    else
      var v := StrictValue(s, pos + 1);
      if v.Reject? then Reject
      else
        var so, p := members[key := v.value], SkipWs(s, v.pos);
        if p == |s| then Reject
        else if s[p] == ',' then StrictMembers(s, p + 1, so)
        else if s[p] == '}' then Accept(Object(so), p + 1)
        else Reject
  }

  // A whole text.
  function StrictText(s: string): Option<Value> {
    var v := StrictValue(s, 0);
    if v.Accept? && SkipWs(s, v.pos) == |s| then Some(v.value) else None
  }

  // ---------------------------------------------------------------- the entry point

  // The characters `str::trim` removes: Unicode's White_Space, a larger set than
  // JSON's whitespace.
  predicate UnicodeSpace(c: char) {
    var n := c as int;
    || 9 <= n <= 13 || n == 0x20 || n == 0x85 || n == 0xA0 || n == 0x1680
    || 0x2000 <= n <= 0x200A || n == 0x2028 || n == 0x2029 || n == 0x202F
    || n == 0x205F || n == 0x3000
  }

  predicate TrimsToNothing(s: string) {
    forall k :: 0 <= k < |s| ==> UnicodeSpace(s[k])
  }

  datatype PartialArguments = Complete(value: Value) | Partial(value: Value) | Invalid

  const EMPTY_OBJECT: Value := Object(map[])

  // What the tolerant parser alone makes of a text.
  function Repaired(raw: string): PartialArguments {
    var v := ValueAt(raw, 0);
    match v.outcome
    case Done(value) => if SkipWs(raw, v.pos) == |raw| then Partial(value) else Invalid
    case Cut(value) => Partial(value)
    case Empty => Partial(EMPTY_OBJECT)
    case Bad => Invalid
  }

  function Parse(raw: string): PartialArguments {
    match StrictText(raw)
    case Some(value) => Complete(value)
    case None => if TrimsToNothing(raw) then Partial(EMPTY_OBJECT) else Repaired(raw)
  }
}
