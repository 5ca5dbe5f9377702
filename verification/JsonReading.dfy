// Reading back what the grammar writes: where the text of a derivation stands in the
// input, the tolerant parser consumes exactly that text and returns its meaning.
module JsonReading {
  import opened Prelude
  import opened JsonNumbers
  import opened JsonText
  import opened JsonLexing
  import opened JsonPlaces
  import opened PartialJson

  // ---------------------------------------------------------------- escapes

  lemma {:induction false} HexReads(s: string, pos: nat, h: HexQuad)
    requires At(s, pos, h)
    ensures Hex4(s, pos) == (Some(HexValue(h)), pos + 4)
  {
    AtSlice(s, pos, h);
    assert forall k :: 0 <= k < 4 ==> s[pos + k] == h[k];
    var d0, d1, d2, d3 := HexDigit(h[0]).value, HexDigit(h[1]).value, HexDigit(h[2]).value, HexDigit(h[3]).value;
    assert HexFrom(s, pos + 1, 3, d0) == HexFrom(s, pos, 4, 0);
    assert HexFrom(s, pos + 2, 2, d0 * 16 + d1) == HexFrom(s, pos + 1, 3, d0);
    assert HexFrom(s, pos + 3, 1, (d0 * 16 + d1) * 16 + d2) == HexFrom(s, pos + 2, 2, d0 * 16 + d1);
    assert HexFrom(s, pos + 4, 0, ((d0 * 16 + d1) * 16 + d2) * 16 + d3) ==
           HexFrom(s, pos + 3, 1, (d0 * 16 + d1) * 16 + d2);
  }

  lemma {:induction false} TwoAt(s: string, pos: nat, c: char, d: char)
    requires At(s, pos, [c, d])
    ensures pos + 1 < |s| && s[pos] == c && s[pos + 1] == d
  {
    AtCons(s, pos, [c, d]);
    AtCons(s, pos + 1, [c, d][1..]);
  }

  lemma {:induction false} HexPieceAt(s: string, pos: nat, h: HexQuad)
    requires At(s, pos, PieceText(Hex(h)))
    ensures IsUnicodeStart(s, pos) && Hex4(s, pos + 2) == (Some(HexValue(h)), pos + 6)
  {
    AtConcat(s, pos, ['\\', 'u'], h);
    TwoAt(s, pos, '\\', 'u');
    HexReads(s, pos + 2, h);
  }

  lemma {:induction false} EscPieceAt(s: string, pos: nat, c: EscapeChar)
    requires At(s, pos, PieceText(Esc(c)))
    ensures pos + 1 < |s| && s[pos] == '\\' && s[pos + 1] == c
  {
    TwoAt(s, pos, '\\', c);
  }

  // What follows a high surrogate completes it only if the next piece does.
  lemma {:induction false} NoLowAhead(s: string, pos: nat, ps: seq<Piece>)
    requires At(s, pos, Rest(ps))
    requires !(ps != [] && ps[0].Hex? && IsLow(HexValue(ps[0].h)))
    ensures !(IsUnicodeStart(s, pos) && Hex4(s, pos + 2).0.Some? && IsLow(Hex4(s, pos + 2).0.value))
  {
    if ps == [] {
      AtCons(s, pos, Rest(ps));
    } else {
      RestFirst(s, pos, ps);
      match ps[0]
      case Plain(c) => AtCons(s, pos, [c]);
      case Esc(c) => EscPieceAt(s, pos, c);
      case Hex(h) => HexPieceAt(s, pos, h);
    }
  }

  lemma {:induction false} EscapeReadsPair(s: string, pos: nat, ps: seq<Piece>)
    requires PairAhead(ps) && At(s, pos, Rest(ps))
    ensures IsUnicodeStart(s, pos)
    ensures UnicodeEscape(s, pos + 2) == (Some(Combine(HexValue(ps[0].h), HexValue(ps[1].h))), pos + 12)
    ensures At(s, pos + 12, Rest(ps[2..])) && |Rest(ps)| == 12 + |Rest(ps[2..])|
  {
    RestFirst(s, pos, ps);
    HexPieceAt(s, pos, ps[0].h);
    RestFirst(s, pos + 6, ps[1..]);
    HexPieceAt(s, pos + 6, ps[1].h);
    assert ps[1..][1..] == ps[2..];
  }

  lemma {:induction false} EscapeReadsOne(s: string, pos: nat, ps: seq<Piece>)
    requires ps != [] && ps[0].Hex? && !PairAhead(ps) && At(s, pos, Rest(ps))
    ensures IsUnicodeStart(s, pos)
    ensures UnicodeEscape(s, pos + 2) == (Some(FirstChar(ps)), pos + 6)
  {
    RestFirst(s, pos, ps);
    HexPieceAt(s, pos, ps[0].h);
    if IsHigh(HexValue(ps[0].h)) {
      NoLowAhead(s, pos + 6, ps[1..]);
    }
  }

  // ---------------------------------------------------------------- strings

  // The character the first piece stands for when it is not half of a pair.
  function FirstChar(ps: seq<Piece>): char
    requires ps != [] && !PairAhead(ps)
  {
    if IsSurrogate(ps[0]) then REPLACEMENT else PieceChar(ps[0])
  }

  // How many pieces are read at once, and as which character.
  function Width(ps: seq<Piece>): (w: nat)
    requires ps != []
    ensures 1 <= w <= |ps|
  {
    if PairAhead(ps) then 2 else 1
  }

  function Character(ps: seq<Piece>): char
    requires ps != []
  {
    if PairAhead(ps) then Combine(HexValue(ps[0].h), HexValue(ps[1].h)) else FirstChar(ps)
  }

  lemma {:induction false} PiecesValueStep(ps: seq<Piece>, out: string)
    requires ps != []
    ensures out + PiecesValue(ps) == (out + [Character(ps)]) + PiecesValue(ps[Width(ps)..])
  {
  }

  // One turn of the string loop. `next` is where it leaves the cursor.
  lemma {:induction false} StringStep(s: string, pos: nat, ps: seq<Piece>, out: string) returns (next: nat)
    requires ps != [] && At(s, pos, Rest(ps))
    ensures pos < next && At(s, next, Rest(ps[Width(ps)..]))
    ensures pos + |Rest(ps)| == next + |Rest(ps[Width(ps)..])|
    ensures StringFrom(s, pos, out) == StringFrom(s, next, out + [Character(ps)])
  {
    if PairAhead(ps) {
      EscapeReadsPair(s, pos, ps);
      next := pos + 12;
    } else {
      RestFirst(s, pos, ps);
      RestParts(ps);
      next := pos + |PieceText(ps[0])|;
      if ps[0].Hex? {
        EscapeReadsOne(s, pos, ps);
      } else {
        CharStep(s, pos, ps[0], out);
      }
    }
  }

  lemma {:induction false} CharStep(s: string, pos: nat, p: Piece, out: string)
    requires !p.Hex? && At(s, pos, PieceText(p))
    ensures StringFrom(s, pos, out) == StringFrom(s, pos + |PieceText(p)|, out + [PieceChar(p)])
  {
    if p.Esc? {
      EscPieceAt(s, pos, p.e);
    } else {
      AtCons(s, pos, PieceText(p));
    }
  }

  lemma {:induction false} StringReads(s: string, pos: nat, ps: seq<Piece>, out: string)
    requires At(s, pos, Rest(ps))
    ensures StringFrom(s, pos, out) == Parsed(Done(String(out + PiecesValue(ps))), pos + |Rest(ps)|)
    decreases |ps|
  {
    if ps == [] {
      AtCons(s, pos, Rest(ps));
      assert out + "" == out;
    } else {
      var next := StringStep(s, pos, ps, out);
      PiecesValueStep(ps, out);
      StringReads(s, next, ps[Width(ps)..], out + [Character(ps)]);
    }
  }

  lemma {:induction false} NameReads(s: string, pos: nat, ps: seq<Piece>)
    requires At(s, pos, Rest(ps))
    ensures StringFrom(s, pos, "") == Parsed(Done(String(PiecesValue(ps))), pos + |Rest(ps)|)
  {
    StringReads(s, pos, ps, "");
    assert "" + PiecesValue(ps) == PiecesValue(ps);
  }

  // ---------------------------------------------------------------- numbers and literals

  lemma {:induction false} NumberEndIs(s: string, pos: nat, token: string)
    requires At(s, pos, token) && NumberChars(token)
    requires pos + |token| < |s| ==> !NumberChar(s[pos + |token|])
    ensures NumberEnd(s, pos) == pos + |token|
    decreases |token|
  {
    if token != [] {
      assert NumberChar(token[0]);
      AtCons(s, pos, token);
      assert forall k :: 0 <= k < |token[1..]| ==> token[1..][k] == token[k + 1];
      NumberEndIs(s, pos + 1, token[1..]);
    }
  }

  lemma {:induction false} NumberReads(s: string, pos: nat, token: string)
    requires At(s, pos, token) && ValidNumber(token)
    requires pos + |token| < |s| ==> !NumberChar(s[pos + |token|])
    ensures NumberEnd(s, pos) == pos + |token| && s[pos..pos + |token|] == token
    ensures NumberAt(s, pos) == Parsed(Done(Number(token)), pos + |token|)
  {
    LiveRunHasNumberChars(Start, token);
    NumberEndIs(s, pos, token);
    AtSlice(s, pos, token);
  }

  lemma {:induction false} LiteralReads(s: string, pos: nat, word: string, value: Value)
    requires At(s, pos, word)
    ensures LiteralFrom(s, pos, word, value) == Parsed(Done(value), pos + |word|)
    decreases |word|
  {
    if word != [] {
      AtCons(s, pos, word);
      LiteralReads(s, pos + 1, word[1..], value);
    }
  }

  // ---------------------------------------------------------------- one turn of each loop

  lemma {:induction false} ElemStep(s: string, pos: nat, items: seq<Value>, v: nat, value: Value, end: nat, sep: nat)
    requires pos <= |s| && SkipWs(s, pos) == v < |s| && s[v] != ']'
    requires ValueAt(s, v) == Parsed(Done(value), end)
    requires SkipWs(s, end) == sep < |s| && (s[sep] == ']' || s[sep] == ',')
    ensures ArrayFrom(s, pos, items) ==
            if s[sep] == ']' then Parsed(Done(Array(items + [value])), sep + 1)
            else ArrayFrom(s, sep + 1, items + [value])
  {
  }

  lemma {:induction false} NameStep(s: string, pos: nat, members: map<string, Value>, quote: nat, close: nat,
                                    colon: nat, key: string)
    requires pos <= |s| && SkipWs(s, pos) == quote < |s| && s[quote] == '"'
    requires StringFrom(s, quote + 1, "") == Parsed(Done(String(key)), close)
    requires SkipWs(s, close) == colon
    ensures ObjectFrom(s, pos, members) == MemberFrom(s, colon, members, key)
  {
  }

  lemma {:induction false} MemberStep(s: string, colon: nat, members: map<string, Value>, key: string, value: Value,
                                      end: nat, sep: nat)
    requires colon < |s| && s[colon] == ':'
    requires ValueAt(s, colon + 1) == Parsed(Done(value), end)
    requires SkipWs(s, end) == sep < |s| && (s[sep] == '}' || s[sep] == ',')
    ensures MemberFrom(s, colon, members, key) ==
            if s[sep] == '}' then Parsed(Done(Object(members[key := value])), sep + 1)
            else ObjectFrom(s, sep + 1, members[key := value])
  {
  }

  lemma {:induction false} ValueAfterSpace(s: string, pos: nat, v: nat)
    requires pos <= |s| && SkipWs(s, pos) == v
    ensures ValueAt(s, pos) == ValueAt(s, v)
  {
    assert SkipWs(s, v) == v;
  }

  // ---------------------------------------------------------------- values

  // A number must not run on into what follows it.
  predicate Stops(j: Json, s: string, end: nat) {
    j.JNumber? && end < |s| ==> !NumberChar(s[end])
  }

  lemma {:induction false} ValueReads(s: string, pos: nat, j: Json)
    requires At(s, pos, Text(j)) && Stops(j, s, pos + |Text(j)|)
    ensures ValueAt(s, pos) == Parsed(Done(Meaning(j)), pos + |Text(j)|)
    decreases j, 0
  {
    match j
    case JArray(elems) =>
      TailPlaces(s, pos, '[', ElemsText(elems));
      ElemsRead(s, pos + 1, elems, []);
      ArrayMeaning(elems);
    case JObject(members) =>
      TailPlaces(s, pos, '{', MembersText(members));
      MembersRead(s, pos + 1, members, map[]);
    case _ => LeafReads(s, pos, j);
  }

  lemma {:induction false} ValueReadsAfterSpace(s: string, pos: nat, v: nat, j: Json)
    requires pos <= |s| && SkipWs(s, pos) == v
    requires At(s, v, Text(j)) && Stops(j, s, v + |Text(j)|)
    ensures ValueAt(s, pos) == Parsed(Done(Meaning(j)), v + |Text(j)|)
    decreases j, 1
  {
    ValueReads(s, v, j);
    ValueAfterSpace(s, pos, v);
  }

  lemma {:induction false} ArrayMeaning(es: Elems)
    ensures [] + ElemsMeaning(es) == ElemsMeaning(es)
  {
  }

  lemma {:induction false} LeafReads(s: string, pos: nat, j: Json)
    requires !j.JArray? && !j.JObject?
    requires At(s, pos, Text(j)) && Stops(j, s, pos + |Text(j)|)
    ensures ValueAt(s, pos) == Parsed(Done(Meaning(j)), pos + |Text(j)|)
  {
    AtCons(s, pos, Text(j));
    match j
    case JNull => LiteralReads(s, pos, "null", Null);
    case JTrue => LiteralReads(s, pos, "true", Bool(true));
    case JFalse => LiteralReads(s, pos, "false", Bool(false));
    case JNumber(n) => NumberValueReads(s, pos, n);
    case JString(ps) =>
      QuotedStarts(ps);
      NameReads(s, pos + 1, ps);
    case JEmptyArray(gap) =>
      TailPlaces(s, pos, '[', gap + "]");
      CloseReads(s, pos + 1, gap, ']');
    case JEmptyObject(gap) =>
      TailPlaces(s, pos, '{', gap + "}");
      CloseReads(s, pos + 1, gap, '}');
  }

  lemma {:induction false} NumberValueReads(s: string, pos: nat, n: NumberSyntax)
    requires At(s, pos, NumberToken(n)) && Stops(JNumber(n), s, pos + |NumberToken(n)|)
    ensures ValueAt(s, pos) == Parsed(Done(Number(NumberToken(n))), pos + |NumberToken(n)|)
  {
    NumberStarts(n);
    NumberAccepted(n);
    AtCons(s, pos, NumberToken(n));
    NumberReads(s, pos, NumberToken(n));
  }

  lemma {:induction false} CloseReads(s: string, pos: nat, gap: Ws, close: char)
    requires At(s, pos, gap + [close]) && !JsonSpace(close)
    ensures SkipWs(s, pos) == pos + |gap| < |s| && s[pos + |gap|] == close
  {
    AtConcat(s, pos, gap, [close]);
    AtCons(s, pos + |gap|, [close]);
    SkipBlank(s, pos, gap);
  }

  lemma {:induction false} ElemsMeaningStep(es: Elems, items: seq<Value>)
    ensures items + ElemsMeaning(es) ==
            if es.LastElem? then items + [Meaning(es.v)] else (items + [Meaning(es.v)]) + ElemsMeaning(es.rest)
  {
  }

  lemma {:induction false} ElemsRead(s: string, pos: nat, es: Elems, items: seq<Value>)
    requires At(s, pos, ElemsText(es))
    ensures ArrayFrom(s, pos, items) == Parsed(Done(Array(items + ElemsMeaning(es))), pos + |ElemsText(es)|)
    decreases es, 1
  {
    var v, end, sep := ElemPlaces(s, pos, es);
    ValueReads(s, v, es.v);
    RestElemsRead(s, pos, es, items, v, Meaning(es.v), end, sep, ArrayFrom(s, pos, items));
  }

  // The rest of the list, once its first element has been read.
  lemma {:induction false} RestElemsRead(s: string, pos: nat, es: Elems, items: seq<Value>, v: nat, value: Value,
                                         end: nat, sep: nat, r: Parsed)
    requires pos <= |s| && SkipWs(s, pos) == v < |s| && s[v] != ']'
    requires ValueAt(s, v) == Parsed(Done(value), end) && value == Meaning(es.v)
    requires SkipWs(s, end) == sep < |s| && s[sep] == (if es.LastElem? then ']' else ',')
    requires es.MoreElems? ==> At(s, sep + 1, ElemsText(es.rest))
    requires r == ArrayFrom(s, pos, items)
    ensures r == Parsed(Done(Array(items + ElemsMeaning(es))), if es.LastElem? then sep + 1
                        else sep + 1 + |ElemsText(es.rest)|)
    decreases es, 0
  {
    ElemStep(s, pos, items, v, value, end, sep);
    ElemsMeaningStep(es, items);
    if es.MoreElems? {
      ElemsRead(s, sep + 1, es.rest, items + [value]);
    }
  }

  lemma {:induction false} MembersRead(s: string, pos: nat, ms: Members, members: map<string, Value>)
    requires At(s, pos, MembersText(ms))
    ensures ObjectFrom(s, pos, members) == Parsed(Done(Object(MembersMeaning(ms, members))), pos + |MembersText(ms)|)
    decreases ms, 2
  {
    var colon := NameOpens(s, pos, ms, members, ObjectFrom(s, pos, members));
    MemberReads(s, colon, ms, members, PiecesValue(ms.key));
  }

  // The name and the colon after it.
  lemma {:induction false} NameOpens(s: string, pos: nat, ms: Members, members: map<string, Value>, r: Parsed)
    returns (colon: nat)
    requires At(s, pos, MembersText(ms)) && r == ObjectFrom(s, pos, members)
    ensures colon < |s| && s[colon] == ':' && At(s, colon + 1, MemberValueText(ms))
    ensures pos + |MembersText(ms)| == colon + 1 + |MemberValueText(ms)|
    ensures r == MemberFrom(s, colon, members, PiecesValue(ms.key))
  {
    var quote, close, at := NamePlaces(s, pos, ms);
    colon := at;
    NameReads(s, quote + 1, ms.key);
    NameStep(s, pos, members, quote, close, colon, PiecesValue(ms.key));
  }

  // A member after its name.
  lemma {:induction false} MemberReads(s: string, colon: nat, ms: Members, members: map<string, Value>, key: string)
    requires colon < |s| && s[colon] == ':'
    requires At(s, colon + 1, MemberValueText(ms))
    ensures MemberFrom(s, colon, members, key) ==
            Parsed(Done(Object(MemberMeaning(ms, members, key))), colon + 1 + |MemberValueText(ms)|)
    decreases ms, 1
  {
    var v, end, sep := MemberPlaces(s, colon + 1, ms);
    ValueReadsAfterSpace(s, colon + 1, v, ms.v);
    RestMembersRead(s, colon, ms, members, key, Meaning(ms.v), end, sep, MemberFrom(s, colon, members, key));
  }

  // The rest of the list, once its first member has been read.
  lemma {:induction false} RestMembersRead(s: string, colon: nat, ms: Members, members: map<string, Value>, key: string,
                                           value: Value, end: nat, sep: nat, r: Parsed)
    requires colon < |s| && s[colon] == ':' && ValueAt(s, colon + 1) == Parsed(Done(value), end) &&
             value == Meaning(ms.v)
    requires SkipWs(s, end) == sep < |s| && s[sep] == (if ms.LastMember? then '}' else ',')
    requires ms.MoreMembers? ==> At(s, sep + 1, MembersText(ms.rest))
    requires r == MemberFrom(s, colon, members, key)
    ensures r == Parsed(Done(Object(MemberMeaning(ms, members, key))),
                        if ms.LastMember? then sep + 1 else sep + 1 + |MembersText(ms.rest)|)
    decreases ms, 0
  {
    MemberStep(s, colon, members, key, value, end, sep);
    MemberMeaningStep(ms, members, key);
    match ms
    case LastMember(_, _, _, _, _, _) =>
    case MoreMembers(_, _, _, _, _, _, rest) => MembersRead(s, sep + 1, rest, members[key := value]);
  }

  lemma {:induction false} MemberMeaningStep(ms: Members, members: map<string, Value>, key: string)
    ensures MemberMeaning(ms, members, key) ==
            if ms.LastMember? then members[key := Meaning(ms.v)]
               else MembersMeaning(ms.rest, members[key := Meaning(ms.v)])
  {
  }
}
