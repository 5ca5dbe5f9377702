// JSON texts as RFC 8259 defines them: a syntax tree for every derivation of the
// grammar (sections 2 to 7), the text it is written as, and the value it means.
module JsonText {
  import opened Prelude
  import opened JsonNumbers

  datatype Value =
    | Null
    | Bool(b: bool)
    | Number(token: string)
    | String(text: string)
    | Array(items: seq<Value>)
    | Object(members: map<string, Value>)

  // ---------------------------------------------------------------- characters

  predicate JsonSpace(c: char) {
    c == ' ' || c == '\t' || c == '\n' || c == '\r'
  }

  // Names an offset into a text, so that what is known of the character there is looked
  // at only where a proof asks for it.
  predicate Offset(i: int) {
    true
  }

  predicate Blank(s: string) {
    forall i {:trigger Offset(i)} :: 0 <= i < |s| && Offset(i) ==> JsonSpace(s[i])
  }

  lemma {:induction false} BlankTail(gap: string)
    requires Blank(gap) && gap != []
    ensures JsonSpace(gap[0]) && Blank(gap[1..])
  {
    assert Offset(0);
    forall i | 0 <= i < |gap| - 1 && Offset(i)
      ensures JsonSpace(gap[1..][i])
    {
      assert Offset(i + 1);
    }
  }

  lemma {:induction false} BlankFront(c: char, gap: string)
    requires JsonSpace(c) && Blank(gap)
    ensures Blank([c] + gap)
  {
    forall i | 0 <= i < |gap| + 1 && Offset(i)
      ensures JsonSpace(([c] + gap)[i])
    {
      assert Offset(i - 1);
    }
  }

  function HexDigit(c: char): (r: Option<nat>)
    ensures r.Some? ==> r.value < 16
  {
    if '0' <= c <= '9' then Some(c as int - '0' as int)
    else if 'a' <= c <= 'f' then Some(c as int - 'a' as int + 10)
    else if 'A' <= c <= 'F' then Some(c as int - 'A' as int + 10)
    else None
  }

  predicate IsHigh(code: nat) {
    0xD800 <= code < 0xDC00
  }

  predicate IsLow(code: nat) {
    0xDC00 <= code < 0xE000
  }

  const REPLACEMENT: char := 0xFFFD as char

  function Combine(high: nat, low: nat): char
    requires IsHigh(high) && IsLow(low)
  {
    (0x10000 + (high - 0xD800) * 0x400 + (low - 0xDC00)) as char
  }

  // The character after a backslash stands for another one; any character without
  // a meaning of its own stands for itself.
  function Unescape(c: char): char {
    if c == 'b' then 8 as char
    else if c == 'f' then 12 as char
    else if c == 'n' then '\n'
    else if c == 'r' then '\r'
    else if c == 't' then '\t'
    else c
  }

  predicate SimpleEscape(c: char) {
    c == '"' || c == '\\' || c == '/' || c == 'b' || c == 'f' || c == 'n' || c == 'r' || c == 't'
  }

  // ---------------------------------------------------------------- strings

  type PlainChar = c: char | c != '"' && c != '\\' && c as int >= 0x20 witness 'a'
  type EscapeChar = c: char | SimpleEscape(c) witness 'n'

  predicate IsHexQuad(h: string) {
    |h| == 4 && HexDigit(h[0]).Some? && HexDigit(h[1]).Some? && HexDigit(h[2]).Some? && HexDigit(h[3]).Some?
  }

  type HexQuad = h: string | IsHexQuad(h) witness "0000"

  // char = unescaped / escape ...
  datatype Piece = Plain(c: PlainChar) | Esc(e: EscapeChar) | Hex(h: HexQuad)

  function PieceText(p: Piece): string {
    match p
    case Plain(c) => [c]
    case Esc(e) => ['\\', e]
    case Hex(h) => ['\\', 'u'] + h
  }

  function PiecesText(ps: seq<Piece>): string {
    if ps == [] then "" else PieceText(ps[0]) + PiecesText(ps[1..])
  }

  function HexValue(h: HexQuad): (code: nat)
    ensures code < 0x10000
  {
    HexDigit(h[0]).value * 0x1000 + HexDigit(h[1]).value * 0x100 + HexDigit(h[2]).value * 0x10 + HexDigit(h[3]).value
  }

  // A surrogate pair at the front: section 7, "the character is represented as a
  // 12-character sequence".
  predicate PairAhead(ps: seq<Piece>) {
    |ps| >= 2 && ps[0].Hex? && IsHigh(HexValue(ps[0].h)) && ps[1].Hex? && IsLow(HexValue(ps[1].h))
  }

  predicate IsSurrogate(p: Piece) {
    p.Hex? && (IsHigh(HexValue(p.h)) || IsLow(HexValue(p.h)))
  }

  // The one character the first piece stands for, when it is no surrogate.
  function PieceChar(p: Piece): char
    requires !IsSurrogate(p)
  {
    match p
    case Plain(c) => c
    case Esc(e) => Unescape(e)
    case Hex(h) => assert HexValue(h) < 0xD800 || 0xE000 <= HexValue(h) < 0x10000; HexValue(h) as char
  }

  // An unpaired surrogate has no meaning (section 8.2); it is read as U+FFFD.
  function PiecesValue(ps: seq<Piece>): string
    decreases |ps|
  {
    if ps == [] then ""
    else if PairAhead(ps) then
      [Combine(HexValue(ps[0].h), HexValue(ps[1].h))] + PiecesValue(ps[2..])
    else if IsSurrogate(ps[0]) then
      [REPLACEMENT] + PiecesValue(ps[1..])
    else
      [PieceChar(ps[0])] + PiecesValue(ps[1..])
  }

  // Every surrogate is half of a pair.
  predicate Paired(ps: seq<Piece>)
    decreases |ps|
  {
    if ps == [] then true
    else if PairAhead(ps) then Paired(ps[2..])
    else !IsSurrogate(ps[0]) && Paired(ps[1..])
  }

  // No surrogate is half of a pair.
  predicate NoPairs(ps: seq<Piece>)
    decreases |ps|
  {
    ps == [] || (!PairAhead(ps) && NoPairs(ps[1..]))
  }

  // ---------------------------------------------------------------- the syntax tree

  // `lead` and `trail` are the insignificant whitespace around a value or a key.
  type Ws = s: string | Blank(s) witness ""
  type NumberSyntax = n: NumberText | WellFormedNumber(n) witness NumberText(false, "0", None, None)

  datatype Json =
    | JNull
    | JTrue
    | JFalse
    | JNumber(n: NumberSyntax)
    | JString(pieces: seq<Piece>)
    | JEmptyArray(gap: Ws)
    | JArray(elems: Elems)
    | JEmptyObject(gap: Ws)
    | JObject(members: Members)

  datatype Elems =
    | LastElem(lead: Ws, v: Json, trail: Ws)
    | MoreElems(lead: Ws, v: Json, trail: Ws, rest: Elems)

  datatype Members =
    | LastMember(lead: Ws, key: seq<Piece>, mid: Ws, pre: Ws, v: Json, trail: Ws)
    | MoreMembers(lead: Ws, key: seq<Piece>, mid: Ws, pre: Ws, v: Json, trail: Ws, rest: Members)

  function Quoted(ps: seq<Piece>): string {
    "\"" + PiecesText(ps) + "\""
  }

  function Text(j: Json): string {
    match j
    case JNull => "null"
    case JTrue => "true"
    case JFalse => "false"
    case JNumber(n) => NumberToken(n)
    case JString(ps) => Quoted(ps)
    case JEmptyArray(gap) => "[" + (gap + "]")
    case JArray(elems) => "[" + ElemsText(elems)
    case JEmptyObject(gap) => "{" + (gap + "}")
    case JObject(members) => "{" + MembersText(members)
  }

  function ElemsText(es: Elems): string {
    es.lead + (Text(es.v) + (es.trail + (
      if es.LastElem? then "]" else "," + ElemsText(es.rest))))
  }

  function MembersText(ms: Members): string {
    ms.lead + (Quoted(ms.key) + (ms.mid + (":" + (ms.pre + (Text(ms.v) + (ms.trail + (
      if ms.LastMember? then "}" else "," + MembersText(ms.rest))))))))
  }

  // ---------------------------------------------------------------- meaning

  function Meaning(j: Json): Value
  {
    match j
    case JNull => Null
    case JTrue => Bool(true)
    case JFalse => Bool(false)
    case JNumber(n) => Number(NumberToken(n))
    case JString(ps) => String(PiecesValue(ps))
    case JEmptyArray(_) => Array([])
    case JArray(elems) => Array(ElemsMeaning(elems))
    case JEmptyObject(_) => Object(map[])
    case JObject(members) => Object(MembersMeaning(members, map[]))
  }

  function ElemsMeaning(es: Elems): seq<Value>
  {
    [Meaning(es.v)] + (if es.LastElem? then [] else ElemsMeaning(es.rest))
  }

  // Members in order: a repeated name keeps its last value.
  function MembersMeaning(ms: Members, before: map<string, Value>): map<string, Value>
    decreases ms, 1
  {
    MemberMeaning(ms, before, PiecesValue(ms.key))
  }

  function MemberMeaning(ms: Members, before: map<string, Value>, key: string): map<string, Value>
    decreases ms, 0
  {
    var so := before[key := Meaning(ms.v)];
    if ms.LastMember? then so else MembersMeaning(ms.rest, so)
  }

  // ---------------------------------------------------------------- properties of a text

  // All strings and names in the text satisfy the pairing rule.
  predicate AllPaired(j: Json)
  {
    match j
    case JString(ps) => Paired(ps)
    case JArray(elems) => AllPairedElems(elems)
    case JObject(members) => AllPairedMembers(members)
    case _ => true
  }

  predicate AllPairedElems(es: Elems)
  {
    AllPaired(es.v) && (es.MoreElems? ==> AllPairedElems(es.rest))
  }

  predicate AllPairedMembers(ms: Members)
    decreases ms, 1
  {
    Paired(ms.key) && AllPairedMember(ms)
  }

  // The same after the first name.
  predicate AllPairedMember(ms: Members)
    decreases ms, 0
  {
    AllPaired(ms.v) && (ms.MoreMembers? ==> AllPairedMembers(ms.rest))
  }

  // A whole text: a value with whitespace around it.
  datatype Document = Document(lead: Ws, j: Json, trail: Ws)

  function DocumentText(d: Document): string {
    d.lead + (Text(d.j) + d.trail)
  }
}
