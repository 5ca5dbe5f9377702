// The strict parser is RFC 8259: it accepts exactly the texts the grammar derives
// with every surrogate paired, and returns their meaning.
module JsonStrict {
  import opened Prelude
  import opened JsonNumbers
  import opened JsonText
  import opened JsonLexing
  import opened JsonPlaces
  import opened PartialJson
  import opened JsonReading

  // ---------------------------------------------------------------- completeness: strings

  lemma {:induction false} PairedRest(ps: seq<Piece>)
    requires ps != [] && Paired(ps)
    ensures Paired(ps[Width(ps)..])
    ensures PairAhead(ps) || !IsSurrogate(ps[0])
  {
  }

  lemma {:induction false} StrictStep(s: string, pos: nat, ps: seq<Piece>, out: string) returns (next: nat)
    requires ps != [] && Paired(ps) && At(s, pos, Rest(ps))
    ensures pos < next && At(s, next, Rest(ps[Width(ps)..]))
    ensures pos + |Rest(ps)| == next + |Rest(ps[Width(ps)..])|
    ensures StrictString(s, pos, out) == StrictString(s, next, out + [Character(ps)])
  {
    PairedRest(ps);
    if PairAhead(ps) {
      EscapeReadsPair(s, pos, ps);
      next := pos + 12;
    } else {
      RestFirst(s, pos, ps);
      RestParts(ps);
      next := pos + |PieceText(ps[0])|;
      match ps[0]
      case Plain(c) => AtCons(s, pos, [c]);
      case Esc(c) => EscPieceAt(s, pos, c);
      case Hex(h) => HexPieceAt(s, pos, h);
    }
  }

  lemma {:induction false} StrictStringReads(s: string, pos: nat, ps: seq<Piece>, out: string)
    requires Paired(ps) && At(s, pos, Rest(ps))
    ensures StrictString(s, pos, out) == Accept(String(out + PiecesValue(ps)), pos + |Rest(ps)|)
    decreases |ps|
  {
    if ps == [] {
      AtCons(s, pos, Rest(ps));
      assert out + "" == out;
    } else {
      var next := StrictStep(s, pos, ps, out);
      PiecesValueStep(ps, out);
      PairedRest(ps);
      StrictStringReads(s, next, ps[Width(ps)..], out + [Character(ps)]);
    }
  }

  lemma {:induction false} StrictNameReads(s: string, pos: nat, ps: seq<Piece>)
    requires Paired(ps) && At(s, pos, Rest(ps))
    ensures StrictString(s, pos, "") == Accept(String(PiecesValue(ps)), pos + |Rest(ps)|)
  {
    StrictStringReads(s, pos, ps, "");
    assert "" + PiecesValue(ps) == PiecesValue(ps);
  }

  // ---------------------------------------------------------------- completeness: loops

  lemma {:induction false} StrictElemStep(s: string, pos: nat, items: seq<Value>, value: Value, end: nat, sep: nat)
    requires pos <= |s| && StrictValue(s, pos) == Accept(value, end)
    requires SkipWs(s, end) == sep < |s| && (s[sep] == ']' || s[sep] == ',')
    ensures StrictElems(s, pos, items) ==
            if s[sep] == ']' then Accept(Array(items + [value]), sep + 1)
            else StrictElems(s, sep + 1, items + [value])
  {
  }

  // `r` and `next` name the two sides, which keeps the solver from unfolding them.
  lemma {:induction false} StrictNameStep(s: string, pos: nat, members: map<string, Value>, quote: nat, close: nat,
                                          colon: nat, key: string, r: Verdict, next: Verdict)
    requires pos <= |s| && SkipWs(s, pos) == quote < |s| && s[quote] == '"'
    requires StrictString(s, quote + 1, "") == Accept(String(key), close)
    requires SkipWs(s, close) == colon
    requires r == StrictMembers(s, pos, members) && next == StrictMember(s, colon, members, key)
    ensures r == next
  {
  }

  lemma {:induction false} StrictMemberStep(s: string, colon: nat, members: map<string, Value>, key: string,
                                            value: Value, end: nat, sep: nat, r: Verdict)
    requires colon < |s| && s[colon] == ':' && StrictValue(s, colon + 1) == Accept(value, end)
    requires SkipWs(s, end) == sep < |s| && (s[sep] == '}' || s[sep] == ',')
    requires r == StrictMember(s, colon, members, key)
    ensures s[sep] == '}' ==> r == Accept(Object(members[key := value]), sep + 1)
    ensures s[sep] == ',' ==> r == StrictMembers(s, sep + 1, members[key := value])
  {
  }

  lemma {:induction false} OpenArray(s: string, pos: nat, v: nat)
    requires pos < |s| && s[pos] == '[' && SkipWs(s, pos + 1) == v < |s| && s[v] != ']'
    ensures StrictValue(s, pos) == StrictElems(s, pos + 1, [])
  {
  }

  lemma {:induction false} OpenObject(s: string, pos: nat, v: nat)
    requires pos < |s| && s[pos] == '{' && SkipWs(s, pos + 1) == v < |s| && s[v] != '}'
    ensures StrictValue(s, pos) == StrictMembers(s, pos + 1, map[])
  {
  }

  lemma {:induction false} StrictAfterSpace(s: string, pos: nat, v: nat)
    requires pos <= |s| && SkipWs(s, pos) == v
    ensures StrictValue(s, pos) == StrictValue(s, v)
  {
    assert SkipWs(s, v) == v;
  }

  // ---------------------------------------------------------------- completeness: values

  lemma {:induction false} StrictReads(s: string, pos: nat, j: Json)
    requires AllPaired(j) && At(s, pos, Text(j)) && Stops(j, s, pos + |Text(j)|)
    ensures StrictValue(s, pos) == Accept(Meaning(j), pos + |Text(j)|)
    decreases j, 0
  {
    match j
    case JArray(elems) =>
      TailPlaces(s, pos, '[', ElemsText(elems));
      ElemsOpen(s, pos, elems);
      StrictElemsRead(s, pos + 1, elems, []);
      ArrayMeaning(elems);
    case JObject(members) =>
      TailPlaces(s, pos, '{', MembersText(members));
      MembersOpen(s, pos, members);
      StrictMembersRead(s, pos + 1, members, map[]);
    case _ => StrictLeafReads(s, pos, j);
  }

  lemma {:induction false} ElemsOpen(s: string, pos: nat, es: Elems)
    requires pos < |s| && s[pos] == '[' && At(s, pos + 1, ElemsText(es))
    ensures StrictValue(s, pos) == StrictElems(s, pos + 1, [])
  {
    var v, end, sep := ElemPlaces(s, pos + 1, es);
    OpenArray(s, pos, v);
  }

  lemma {:induction false} MembersOpen(s: string, pos: nat, ms: Members)
    requires pos < |s| && s[pos] == '{' && At(s, pos + 1, MembersText(ms))
    ensures StrictValue(s, pos) == StrictMembers(s, pos + 1, map[])
  {
    var quote, close, colon := NamePlaces(s, pos + 1, ms);
    OpenObject(s, pos, quote);
  }

  lemma {:induction false} StrictLeafReads(s: string, pos: nat, j: Json)
    requires AllPaired(j) && !j.JArray? && !j.JObject?
    requires At(s, pos, Text(j)) && Stops(j, s, pos + |Text(j)|)
    ensures StrictValue(s, pos) == Accept(Meaning(j), pos + |Text(j)|)
  {
    AtCons(s, pos, Text(j));
    match j
    case JNumber(n) => StrictNumberReads(s, pos, n);
    case JString(ps) =>
      QuotedStarts(ps);
      StrictNameReads(s, pos + 1, ps);
    case JEmptyArray(gap) => EmptyReads(s, pos, '[', gap, ']');
    case JEmptyObject(gap) => EmptyReads(s, pos, '{', gap, '}');
    case _ => StrictWordReads(s, pos, j);
  }

  lemma {:induction false} StrictWordReads(s: string, pos: nat, j: Json)
    requires (j.JNull? || j.JTrue? || j.JFalse?) && At(s, pos, Text(j))
    ensures StrictValue(s, pos) == Accept(Meaning(j), pos + |Text(j)|)
  {
    AtCons(s, pos, Text(j));
    match j
    case JNull => StrictLiteralReads(s, pos, "null", Null);
    case JTrue => StrictLiteralReads(s, pos, "true", Bool(true));
    case JFalse => StrictLiteralReads(s, pos, "false", Bool(false));
  }

  lemma {:induction false} EmptyReads(s: string, pos: nat, open: char, gap: Ws, close: char)
    requires At(s, pos, [open] + (gap + [close])) && !JsonSpace(open) && !JsonSpace(close)
    ensures pos < |s| && s[pos] == open && SkipWs(s, pos) == pos
    ensures SkipWs(s, pos + 1) == pos + 1 + |gap| < |s| && s[pos + 1 + |gap|] == close
  {
    TailPlaces(s, pos, open, gap + [close]);
    CloseReads(s, pos + 1, gap, close);
  }

  lemma {:induction false} StrictLiteralReads(s: string, pos: nat, word: string, value: Value)
    requires At(s, pos, word)
    ensures StrictLiteral(s, pos, word, value) == Accept(value, pos + |word|)
    decreases |word|
  {
    if word != [] {
      AtCons(s, pos, word);
      StrictLiteralReads(s, pos + 1, word[1..], value);
    }
  }

  lemma {:induction false} LiteralSound(s: string, pos: nat, word: string, value: Value)
    requires pos <= |s| && StrictLiteral(s, pos, word, value).Accept?
    ensures At(s, pos, word)
    decreases |word|
  {
    if word != [] {
      LiteralSound(s, pos + 1, word[1..], value);
      AtFront(s, pos, word[0], word[1..]);
      assert word == [word[0]] + word[1..];
    }
  }

  lemma {:induction false} StrictNumberReads(s: string, pos: nat, n: NumberSyntax)
    requires At(s, pos, NumberToken(n)) && Stops(JNumber(n), s, pos + |NumberToken(n)|)
    ensures StrictValue(s, pos) == Accept(Number(NumberToken(n)), pos + |NumberToken(n)|)
  {
    NumberStarts(n);
    NumberAccepted(n);
    AtCons(s, pos, NumberToken(n));
    NumberReads(s, pos, NumberToken(n));
  }

  lemma {:induction false} StrictReadsAfterSpace(s: string, pos: nat, v: nat, j: Json)
    requires pos <= |s| && SkipWs(s, pos) == v
    requires AllPaired(j) && At(s, v, Text(j)) && Stops(j, s, v + |Text(j)|)
    ensures StrictValue(s, pos) == Accept(Meaning(j), v + |Text(j)|)
    decreases j, 1
  {
    StrictReads(s, v, j);
    StrictAfterSpace(s, pos, v);
  }

  lemma {:induction false} StrictElemsRead(s: string, pos: nat, es: Elems, items: seq<Value>)
    requires AllPairedElems(es) && At(s, pos, ElemsText(es))
    ensures StrictElems(s, pos, items) == Accept(Array(items + ElemsMeaning(es)), pos + |ElemsText(es)|)
    decreases es, 1
  {
    var v, end, sep := ElemPlaces(s, pos, es);
    StrictReadsAfterSpace(s, pos, v, es.v);
    StrictRestElemsRead(s, pos, es, items, Meaning(es.v), end, sep, StrictElems(s, pos, items));
  }

  lemma {:induction false} StrictRestElemsRead(s: string, pos: nat, es: Elems, items: seq<Value>, value: Value,
                                               end: nat, sep: nat, r: Verdict)
    requires es.MoreElems? ==> AllPairedElems(es.rest)
    requires pos <= |s| && StrictValue(s, pos) == Accept(value, end) && value == Meaning(es.v)
    requires SkipWs(s, end) == sep < |s| && s[sep] == (if es.LastElem? then ']' else ',')
    requires es.MoreElems? ==> At(s, sep + 1, ElemsText(es.rest))
    requires r == StrictElems(s, pos, items)
    ensures r == Accept(Array(items + ElemsMeaning(es)), if es.LastElem? then sep + 1
                        else sep + 1 + |ElemsText(es.rest)|)
    decreases es, 0
  {
    StrictElemStep(s, pos, items, value, end, sep);
    ElemsMeaningStep(es, items);
    if es.MoreElems? {
      StrictElemsRead(s, sep + 1, es.rest, items + [value]);
    }
  }

  lemma {:induction false} StrictMembersRead(s: string, pos: nat, ms: Members, members: map<string, Value>)
    requires AllPairedMembers(ms) && At(s, pos, MembersText(ms))
    ensures StrictMembers(s, pos, members) == Accept(Object(MembersMeaning(ms, members)), pos + |MembersText(ms)|)
    decreases ms, 2
  {
    var quote, close, colon := NamePlaces(s, pos, ms);
    StrictNameOpens(s, pos, members, quote, close, colon, ms.key);
    StrictMemberReads(s, colon, ms, members, PiecesValue(ms.key));
  }

  // The name and the colon after it.
  lemma {:induction false} StrictNameOpens(s: string, pos: nat, members: map<string, Value>, quote: nat, close: nat,
                                           colon: nat, key: seq<Piece>)
    requires Paired(key) && pos <= |s| && SkipWs(s, pos) == quote < |s| && s[quote] == '"'
    requires At(s, quote + 1, Rest(key)) && close == quote + 1 + |Rest(key)| && SkipWs(s, close) == colon
    ensures StrictMembers(s, pos, members) == StrictMember(s, colon, members, PiecesValue(key))
  {
    StrictNameReads(s, quote + 1, key);
    StrictNameStep(s, pos, members, quote, close, colon, PiecesValue(key), StrictMembers(s, pos, members),
                   StrictMember(s, colon, members, PiecesValue(key)));
  }

  lemma {:induction false} StrictMemberReads(s: string, colon: nat, ms: Members, members: map<string, Value>,
                                             key: string)
    requires AllPairedMember(ms)
    requires colon < |s| && s[colon] == ':' && At(s, colon + 1, MemberValueText(ms))
    ensures StrictMember(s, colon, members, key) ==
            Accept(Object(MemberMeaning(ms, members, key)), colon + 1 + |MemberValueText(ms)|)
    decreases ms, 1
  {
    var v, end, sep := MemberPlaces(s, colon + 1, ms);
    StrictReadsAfterSpace(s, colon + 1, v, ms.v);
    StrictRestReads(s, colon, ms, members, key, Meaning(ms.v), end, sep);
  }

  lemma {:induction false} StrictRestReads(s: string, colon: nat, ms: Members, members: map<string, Value>, key: string,
                                           value: Value, end: nat, sep: nat)
    requires ms.MoreMembers? ==> AllPairedMembers(ms.rest)
    requires colon < |s| && s[colon] == ':' && StrictValue(s, colon + 1) == Accept(value, end) && value == Meaning(ms.v)
    requires SkipWs(s, end) == sep < |s| && s[sep] == (if ms.LastMember? then '}' else ',')
    requires ms.MoreMembers? ==> At(s, sep + 1, MembersText(ms.rest))
    ensures StrictMember(s, colon, members, key) ==
            Accept(Object(MemberMeaning(ms, members, key)),
                   if ms.LastMember? then sep + 1 else sep + 1 + |MembersText(ms.rest)|)
    decreases ms, 0
  {
    StrictMemberStep(s, colon, members, key, value, end, sep, StrictMember(s, colon, members, key));
    MemberMeaningStep(ms, members, key);
    match ms
    case LastMember(_, _, _, _, _, _) =>
    case MoreMembers(_, _, _, _, _, _, rest) => StrictMembersRead(s, sep + 1, rest, members[key := value]);
  }

  // ---------------------------------------------------------------- soundness: parts

  // The whitespace skipped at a position, as text.
  lemma {:induction false} Gap(s: string, pos: nat) returns (gap: Ws)
    requires pos <= |s|
    ensures Blank(gap) && At(s, pos, gap) && SkipWs(s, pos) == pos + |gap|
    decreases |s| - pos
  {
    if pos < |s| && JsonSpace(s[pos]) {
      var rest := Gap(s, pos + 1);
      BlankFront(s[pos], rest);
      gap := [s[pos]] + rest;
      AtFront(s, pos, s[pos], rest);
    } else {
      gap := "";
    }
  }

  lemma {:induction false} HexSound(s: string, pos: nat) returns (h: HexQuad)
    requires pos <= |s| && Hex4(s, pos).0.Some?
    ensures At(s, pos, h) && HexValue(h) == Hex4(s, pos).0.value
  {
    var quad := s[pos..pos + 4];
    assert HexFrom(s, pos, 4, 0).0.Some? ==> HexDigit(s[pos]).Some?;
    assert HexFrom(s, pos + 1, 3, HexDigit(s[pos]).value) == HexFrom(s, pos, 4, 0);
    var d1 := HexDigit(s[pos]).value * 16 + HexDigit(s[pos + 1]).value;
    assert HexFrom(s, pos + 2, 2, d1) == HexFrom(s, pos, 4, 0);
    var d2 := d1 * 16 + HexDigit(s[pos + 2]).value;
    assert HexFrom(s, pos + 3, 1, d2) == HexFrom(s, pos, 4, 0);
    assert HexDigit(s[pos + 3]).Some?;
    assert forall k :: 0 <= k < 4 ==> quad[k] == s[pos + k];
    h := quad;
    SliceAt(s, pos, h);
    HexReads(s, pos, h);
  }

  lemma {:induction false} EscapeAt(s: string, pos: nat, h: HexQuad)
    requires IsUnicodeStart(s, pos) && At(s, pos + 2, h)
    ensures At(s, pos, PieceText(Hex(h)))
  {
    AtFront(s, pos + 1, 'u', h);
    AtFront(s, pos, '\\', ['u'] + h);
    assert PieceText(Hex(h)) == ['\\'] + (['u'] + h);
  }

  // Putting one more character in front.
  lemma {:induction false} FrontOne(p: Piece, ps: seq<Piece>)
    requires !IsSurrogate(p) && Paired(ps)
    ensures var all := [p] + ps;
            && Paired(all) && Rest(all) == PieceText(p) + Rest(ps)
            && PiecesValue(all) == [PieceChar(p)] + PiecesValue(ps)
  {
    var all := [p] + ps;
    assert all[1..] == ps;
    RestParts(all);
  }

  lemma {:induction false} FrontPair(hi: HexQuad, lo: HexQuad, ps: seq<Piece>)
    requires IsHigh(HexValue(hi))
    requires IsLow(HexValue(lo))
    requires Paired(ps)
    ensures var all := [Hex(hi), Hex(lo)] + ps;
            && Paired(all)
            && Rest(all) == PieceText(Hex(hi)) + (PieceText(Hex(lo)) + Rest(ps))
            && PiecesValue(all) == [Combine(HexValue(hi), HexValue(lo))] + PiecesValue(ps)
  {
    var all := [Hex(hi), Hex(lo)] + ps;
    assert all[2..] == ps;
    assert all[1..][1..] == ps;
    RestParts(all);
    RestParts(all[1..]);
  }

  // ---------------------------------------------------------------- soundness: strings

  lemma {:induction false} StrictStringSound(s: string, pos: nat, out: string) returns (ps: seq<Piece>)
    requires pos <= |s| && StrictString(s, pos, out).Accept?
    ensures Paired(ps) && At(s, pos, Rest(ps))
    ensures StrictString(s, pos, out) == Accept(String(out + PiecesValue(ps)), pos + |Rest(ps)|)
    decreases |s| - pos, 1
  {
    if s[pos] == '"' {
      ps := [];
      AtFront(s, pos, '"', "");
      assert Rest(ps) == ['"'] + "";
    } else if s[pos] == '\\' && s[pos + 1] == 'u' {
      ps := StrictUnicodeSound(s, pos, out);
    } else {
      var p := if s[pos] == '\\' then Esc(s[pos + 1]) else Plain(s[pos]);
      var rest := StrictStringSound(s, pos + |PieceText(p)|, out + [PieceChar(p)]);
      PieceAt(s, pos, p);
      FrontOne(p, rest);
      ps := [p] + rest;
      AtJoin(s, pos, PieceText(p), Rest(rest));
    }
    StrictStringReads(s, pos, ps, out);
  }

  lemma {:induction false} PieceAt(s: string, pos: nat, p: Piece)
    requires pos < |s| && !p.Hex?
    requires p.Plain? ==> p.c == s[pos]
    requires p.Esc? ==> pos + 1 < |s| && s[pos] == '\\' && p.e == s[pos + 1]
    ensures At(s, pos, PieceText(p))
  {
    if p.Esc? {
      AtFront(s, pos + 1, p.e, "");
      AtFront(s, pos, '\\', [p.e]);
      assert PieceText(p) == ['\\'] + [p.e];
    } else {
      AtFront(s, pos, p.c, "");
    }
  }

  lemma {:induction false} StrictUnicodeSound(s: string, pos: nat, out: string) returns (ps: seq<Piece>)
    requires pos + 1 < |s| && s[pos] == '\\' && s[pos + 1] == 'u' && StrictString(s, pos, out).Accept?
    ensures Paired(ps) && At(s, pos, Rest(ps))
    decreases |s| - pos, 0
  {
    var (c, p) := StrictEscape(s, pos + 2).value;
    var h := HexSound(s, pos + 2);
    EscapeAt(s, pos, h);
    var rest := StrictStringSound(s, p, out + [c]);
    if IsHigh(HexValue(h)) {
      var lo := HexSound(s, pos + 8);
      EscapeAt(s, pos + 6, lo);
      FrontPair(h, lo, rest);
      ps := [Hex(h), Hex(lo)] + rest;
      AtJoin(s, pos + 6, PieceText(Hex(lo)), Rest(rest));
      AtJoin(s, pos, PieceText(Hex(h)), PieceText(Hex(lo)) + Rest(rest));
    } else {
      FrontOne(Hex(h), rest);
      ps := [Hex(h)] + rest;
      AtJoin(s, pos, PieceText(Hex(h)), Rest(rest));
    }
  }

  // ---------------------------------------------------------------- soundness: values

  lemma {:induction false} AtFour(s: string, pos: nat, a: string, b: string, c: string, d: string, whole: string)
    requires whole == a + (b + (c + d))
    requires At(s, pos, a) && At(s, pos + |a|, b) && At(s, pos + |a| + |b|, c) && At(s, pos + |a| + |b| + |c|, d)
    ensures At(s, pos, whole)
  {
    AtJoin(s, pos + |a| + |b|, c, d);
    AtJoin(s, pos + |a|, b, c + d);
    AtJoin(s, pos, a, b + (c + d));
  }

  lemma {:induction false} AtThree(s: string, pos: nat, a: string, b: string, c: string)
    requires At(s, pos, a) && At(s, pos + |a|, b) && At(s, pos + |a| + |b|, c)
    ensures At(s, pos, a + (b + c))
  {
    AtJoin(s, pos + |a|, b, c);
    AtJoin(s, pos, a, b + c);
  }

  lemma {:induction false} ValueSound(s: string, pos: nat) returns (j: Json)
    requires pos <= |s| && StrictValue(s, pos).Accept?
    ensures var v := SkipWs(s, pos);
            && At(s, v, Text(j)) && AllPaired(j) && Stops(j, s, v + |Text(j)|)
            && StrictValue(s, pos) == Accept(Meaning(j), v + |Text(j)|)
    decreases |s| - pos, 1
  {
    var v := SkipWs(s, pos);
    StrictAfterSpace(s, pos, v);
    j := PlacedReads(s, v);
  }

  lemma {:induction false} PlacedReads(s: string, v: nat) returns (j: Json)
    requires v <= |s| && SkipWs(s, v) == v && StrictValue(s, v).Accept?
    ensures At(s, v, Text(j)) && AllPaired(j) && Stops(j, s, v + |Text(j)|)
    ensures StrictValue(s, v) == Accept(Meaning(j), v + |Text(j)|)
    decreases |s| - v, 0, 2
  {
    j := PlacedSound(s, v);
    StrictReads(s, v, j);
  }

  lemma {:induction false} PlacedSound(s: string, v: nat) returns (j: Json)
    requires v <= |s| && SkipWs(s, v) == v && StrictValue(s, v).Accept?
    ensures At(s, v, Text(j)) && AllPaired(j) && Stops(j, s, v + |Text(j)|)
    decreases |s| - v, 0, 1
  {
    if s[v] == '[' {
      j := ArraySound(s, v);
    } else if s[v] == '{' {
      j := ObjectSound(s, v);
    } else {
      j := LeafSound(s, v);
    }
  }

  lemma {:induction false} LeafSound(s: string, v: nat) returns (j: Json)
    requires v < |s| && SkipWs(s, v) == v && s[v] != '[' && s[v] != '{' && StrictValue(s, v).Accept?
    ensures At(s, v, Text(j)) && AllPaired(j) && Stops(j, s, v + |Text(j)|)
  {
    if s[v] == '"' {
      var ps := StrictStringSound(s, v + 1, "");
      j := JString(ps);
      QuotedStarts(ps);
      assert Text(j) == "\"" + Rest(ps);
      AtFront(s, v, '"', Rest(ps));
    } else if s[v] == '-' || Digit(s[v]) {
      j := NumberSound(s, v);
    } else {
      j := WordSound(s, v);
    }
  }

  lemma {:induction false} WordSound(s: string, v: nat) returns (j: Json)
    requires v < |s| && SkipWs(s, v) == v && StrictValue(s, v).Accept?
    requires s[v] != '[' && s[v] != '{' && s[v] != '"' && s[v] != '-' && !Digit(s[v])
    ensures At(s, v, Text(j)) && AllPaired(j) && Stops(j, s, v + |Text(j)|)
  {
    if s[v] == 't' {
      j := JTrue;
      LiteralSound(s, v, "true", Bool(true));
    } else if s[v] == 'f' {
      j := JFalse;
      LiteralSound(s, v, "false", Bool(false));
    } else {
      j := JNull;
      LiteralSound(s, v, "null", Null);
    }
  }

  lemma {:induction false} NumberEndAt(s: string, pos: nat) returns (token: string)
    requires pos <= |s|
    ensures At(s, pos, token) && NumberEnd(s, pos) == pos + |token| && s[pos..NumberEnd(s, pos)] == token
  {
    token := s[pos..NumberEnd(s, pos)];
    SliceAt(s, pos, token);
  }

  lemma {:induction false} ValidSyntax(token: string) returns (n: NumberSyntax)
    requires ValidNumber(token)
    ensures NumberToken(n) == token
  {
    NumberGrammar(token);
    n :| WellFormedNumber(n) && NumberToken(n) == token;
  }

  lemma {:induction false} NumberSound(s: string, v: nat) returns (j: Json)
    requires v < |s| && StrictNumber(s, v).Accept?
    ensures At(s, v, Text(j)) && AllPaired(j) && Stops(j, s, v + |Text(j)|)
  {
    var token := NumberEndAt(s, v);
    var n := ValidSyntax(token);
    j := JNumber(n);
  }

  lemma {:induction false} ArraySound(s: string, v: nat) returns (j: Json)
    requires v < |s| && s[v] == '[' && SkipWs(s, v) == v && StrictValue(s, v).Accept?
    ensures At(s, v, Text(j)) && AllPaired(j) && Stops(j, s, v + |Text(j)|)
    decreases |s| - v, 0, 0
  {
    var q := SkipWs(s, v + 1);
    if q < |s| && s[q] == ']' {
      var gap := Gap(s, v + 1);
      j := JEmptyArray(gap);
      AtJoin(s, v + 1, gap, "]");
      AtFront(s, v, '[', gap + "]");
    } else {
      var es := ElemsSound(s, v + 1, []);
      j := JArray(es);
      AtFront(s, v, '[', ElemsText(es));
    }
  }

  lemma {:induction false} ObjectSound(s: string, v: nat) returns (j: Json)
    requires v < |s| && s[v] == '{' && SkipWs(s, v) == v && StrictValue(s, v).Accept?
    ensures At(s, v, Text(j)) && AllPaired(j) && Stops(j, s, v + |Text(j)|)
    decreases |s| - v, 0, 0
  {
    var q := SkipWs(s, v + 1);
    if q < |s| && s[q] == '}' {
      var gap := Gap(s, v + 1);
      j := JEmptyObject(gap);
      AtJoin(s, v + 1, gap, "}");
      AtFront(s, v, '{', gap + "}");
    } else {
      var ms := MembersSound(s, v + 1, map[]);
      j := JObject(ms);
      AtFront(s, v, '{', MembersText(ms));
    }
  }

  // What acceptance says about each part.
  lemma {:induction false} ElemsAccepted(s: string, pos: nat, items: seq<Value>)
    returns (end: nat, sep: nat, more: seq<Value>)
    requires pos <= |s| && StrictElems(s, pos, items).Accept?
    ensures StrictValue(s, pos).Accept? && end == StrictValue(s, pos).pos && end <= sep < |s| && sep == SkipWs(s, end)
    ensures s[sep] == ']' || s[sep] == ','
    ensures s[sep] == ',' ==> StrictElems(s, sep + 1, more).Accept?
  {
    end := StrictValue(s, pos).pos;
    sep := SkipWs(s, end);
    more := items + [StrictValue(s, pos).value];
  }

  lemma {:induction false} NameAccepted(s: string, pos: nat, members: map<string, Value>)
    returns (quote: nat, close: nat, colon: nat, name: string)
    requires pos <= |s| && StrictMembers(s, pos, members).Accept?
    ensures SkipWs(s, pos) == quote < |s| && s[quote] == '"'
    ensures StrictString(s, quote + 1, "") == Accept(String(name), close)
    ensures SkipWs(s, close) == colon && StrictMember(s, colon, members, name).Accept?
  {
    quote := SkipWs(s, pos);
    close := StrictString(s, quote + 1, "").pos;
    name := StrictString(s, quote + 1, "").value.text;
    colon := SkipWs(s, close);
  }

  lemma {:induction false} MemberAccepted(s: string, colon: nat, members: map<string, Value>, name: string)
    returns (end: nat, sep: nat, more: map<string, Value>)
    requires colon <= |s| && StrictMember(s, colon, members, name).Accept?
    ensures colon < |s| && s[colon] == ':' && StrictValue(s, colon + 1).Accept?
    ensures end == StrictValue(s, colon + 1).pos && end <= sep < |s| && sep == SkipWs(s, end)
    ensures s[sep] == '}' || s[sep] == ','
    ensures s[sep] == ',' ==> StrictMembers(s, sep + 1, more).Accept?
  {
    end := StrictValue(s, colon + 1).pos;
    sep := SkipWs(s, end);
    more := members[name := StrictValue(s, colon + 1).value];
  }

  // A value with its gaps, as text.
  lemma {:induction false} SpacedSound(s: string, pos: nat, end: nat, sep: nat) returns (lead: Ws, j: Json, trail: Ws)
    requires pos <= |s| && StrictValue(s, pos).Accept? && StrictValue(s, pos).pos == end && SkipWs(s, end) == sep
    ensures At(s, pos, lead) && At(s, pos + |lead|, Text(j)) && At(s, pos + |lead| + |Text(j)|, trail)
    ensures sep == pos + |lead| + |Text(j)| + |trail| && AllPaired(j)
    decreases |s| - pos, 2
  {
    j := ValueSound(s, pos);
    lead, trail := GapsAround(s, pos, j, end);
  }

  lemma {:induction false} GapsAround(s: string, pos: nat, j: Json, end: nat) returns (lead: Ws, trail: Ws)
    requires pos <= |s| && end == SkipWs(s, pos) + |Text(j)| <= |s|
    ensures At(s, pos, lead) && SkipWs(s, pos) == pos + |lead|
    ensures At(s, end, trail) && SkipWs(s, end) == end + |trail|
  {
    lead := Gap(s, pos);
    trail := Gap(s, end);
  }

  lemma {:induction false} ElemsSound(s: string, pos: nat, items: seq<Value>) returns (es: Elems)
    requires pos <= |s| && StrictElems(s, pos, items).Accept?
    ensures At(s, pos, ElemsText(es)) && AllPairedElems(es)
    decreases |s| - pos, 3
  {
    var end, sep, more := ElemsAccepted(s, pos, items);
    var lead, j, trail := SpacedSound(s, pos, end, sep);
    if s[sep] == ']' {
      es := LastElem(lead, j, trail);
      AtFront(s, sep, ']', "");
    } else {
      var rest := ElemsSound(s, sep + 1, more);
      es := MoreElems(lead, j, trail, rest);
      AtFront(s, sep, ',', ElemsText(rest));
    }
    ElemsJoin(s, pos, es, lead, j, trail);
  }

  lemma {:induction false} ElemsJoin(s: string, pos: nat, es: Elems, lead: Ws, j: Json, trail: Ws)
    requires es.lead == lead && es.v == j && es.trail == trail
    requires At(s, pos, lead) && At(s, pos + |lead|, Text(j)) && At(s, pos + |lead| + |Text(j)|, trail)
    requires At(s, pos + |lead| + |Text(j)| + |trail|, ElemsTail(es))
    ensures At(s, pos, ElemsText(es))
  {
    ElemsParts(es);
    AtFour(s, pos, lead, Text(j), trail, ElemsTail(es), lead + (Text(j) + (trail + ElemsTail(es))));
  }

  lemma {:induction false} MembersSound(s: string, pos: nat, members: map<string, Value>) returns (ms: Members)
    requires pos <= |s| && StrictMembers(s, pos, members).Accept?
    ensures At(s, pos, MembersText(ms)) && AllPairedMembers(ms)
    decreases |s| - pos, 5
  {
    var quote, close, colon, name := NameAccepted(s, pos, members);
    var lead, key, mid := NameSound(s, pos, quote, close, colon);
    ms := NamedSound(s, pos, members, colon, name, lead, key, mid);
  }

  lemma {:induction false} NamedSound(s: string, pos: nat, members: map<string, Value>, colon: nat, name: string,
                                      lead: Ws, key: seq<Piece>, mid: Ws)
    returns (ms: Members)
    requires pos <= |s| && At(s, pos, lead) && At(s, pos + |lead|, Quoted(key)) && Paired(key)
    requires At(s, pos + |lead| + |Quoted(key)|, mid) && colon == pos + |lead| + |Quoted(key)| + |mid| <= |s|
    requires StrictMember(s, colon, members, name).Accept?
    ensures At(s, pos, MembersText(ms)) && AllPairedMembers(ms)
    decreases |s| - pos, 4
  {
    ms := MemberSound(s, colon, members, name, lead, key, mid);
    NamedJoin(s, pos, ms, lead, key, mid, colon);
  }

  lemma {:induction false} NamedJoin(s: string, pos: nat, ms: Members, lead: Ws, key: seq<Piece>, mid: Ws, colon: nat)
    requires ms.lead == lead && ms.key == key && ms.mid == mid && Paired(key) && AllPairedMember(ms)
    requires At(s, pos, lead) && At(s, pos + |lead|, Quoted(key)) && At(s, pos + |lead| + |Quoted(key)|, mid)
    requires colon == pos + |lead| + |Quoted(key)| + |mid| < |s| && s[colon] == ':'
    requires At(s, colon + 1, MemberValueText(ms))
    ensures At(s, pos, MembersText(ms)) && AllPairedMembers(ms)
  {
    MembersParts(ms);
    NamedText(s, pos, lead, key, mid, colon, MemberValueText(ms));
  }

  lemma {:induction false} NamedText(s: string, pos: nat, lead: Ws, key: seq<Piece>, mid: Ws, colon: nat, rest: string)
    requires At(s, pos, lead) && At(s, pos + |lead|, Quoted(key)) && At(s, pos + |lead| + |Quoted(key)|, mid)
    requires colon == pos + |lead| + |Quoted(key)| + |mid| < |s| && s[colon] == ':' && At(s, colon + 1, rest)
    ensures At(s, pos, lead + (Quoted(key) + (mid + (":" + rest))))
  {
    AtFront(s, colon, ':', rest);
    AtFour(s, pos, lead, Quoted(key), mid, ":" + rest, lead + (Quoted(key) + (mid + (":" + rest))));
  }

  lemma {:induction false} NameSound(s: string, pos: nat, quote: nat, close: nat, colon: nat)
    returns (lead: Ws, key: seq<Piece>, mid: Ws)
    requires pos <= |s| && SkipWs(s, pos) == quote < |s| && s[quote] == '"'
    requires StrictString(s, quote + 1, "").Accept? && StrictString(s, quote + 1, "").pos == close
    requires SkipWs(s, close) == colon
    ensures At(s, pos, lead) && At(s, pos + |lead|, Quoted(key)) && At(s, pos + |lead| + |Quoted(key)|, mid)
    ensures colon == pos + |lead| + |Quoted(key)| + |mid| && Paired(key)
  {
    lead := Gap(s, pos);
    key := StrictStringSound(s, quote + 1, "");
    mid := Gap(s, close);
    QuotedAt(s, quote, key);
  }

  lemma {:induction false} QuotedAt(s: string, quote: nat, key: seq<Piece>)
    requires quote < |s| && s[quote] == '"' && At(s, quote + 1, Rest(key))
    ensures At(s, quote, Quoted(key)) && |Quoted(key)| == 1 + |Rest(key)|
  {
    AtFront(s, quote, '"', Rest(key));
    assert Quoted(key) == "\"" + Rest(key);
  }

  lemma {:induction false} MemberSound(s: string, colon: nat, members: map<string, Value>, name: string, lead: Ws,
                                       key: seq<Piece>, mid: Ws) returns (ms: Members)
    requires colon <= |s| && StrictMember(s, colon, members, name).Accept?
    ensures colon < |s| && s[colon] == ':' && ms.lead == lead && ms.key == key && ms.mid == mid
    ensures At(s, colon + 1, MemberValueText(ms)) && AllPairedMember(ms)
    decreases |s| - colon, 3
  {
    var end, sep, more := MemberAccepted(s, colon, members, name);
    var pre, j, trail := SpacedSound(s, colon + 1, end, sep);
    ms := RestSound(s, colon + 1, lead, key, mid, pre, j, trail, sep, more);
  }

  lemma {:induction false} RestSound(s: string, pos: nat, lead: Ws, key: seq<Piece>, mid: Ws, pre: Ws, j: Json,
                                     trail: Ws, sep: nat, more: map<string, Value>)
    returns (ms: Members)
    requires At(s, pos, pre) && At(s, pos + |pre|, Text(j)) && At(s, pos + |pre| + |Text(j)|, trail)
    requires sep == pos + |pre| + |Text(j)| + |trail| < |s| && AllPaired(j)
    requires s[sep] != '}' ==> s[sep] == ',' && StrictMembers(s, sep + 1, more).Accept?
    ensures ms.lead == lead && ms.key == key && ms.mid == mid
    ensures At(s, pos, MemberValueText(ms)) && AllPairedMember(ms)
    decreases |s| - sep, 6
  {
    if s[sep] == '}' {
      ms := LastJoin(s, pos, lead, key, mid, pre, j, trail, sep);
    } else {
      var rest := MembersSound(s, sep + 1, more);
      ms := MoreJoin(s, pos, lead, key, mid, pre, j, trail, rest, sep);
    }
  }

  lemma {:induction false} LastJoin(s: string, pos: nat, lead: Ws, key: seq<Piece>, mid: Ws, pre: Ws, j: Json,
                                    trail: Ws, sep: nat)
    returns (ms: Members)
    requires At(s, pos, pre) && At(s, pos + |pre|, Text(j)) && At(s, pos + |pre| + |Text(j)|, trail)
    requires sep == pos + |pre| + |Text(j)| + |trail| < |s| && s[sep] == '}'
    requires AllPaired(j)
    ensures ms.lead == lead && ms.key == key && ms.mid == mid
    ensures At(s, pos, MemberValueText(ms)) && AllPairedMember(ms)
  {
    ms := LastMember(lead, key, mid, pre, j, trail);
    AtFront(s, sep, '}', "");
    AtFour(s, pos, pre, Text(j), trail, "}", MemberValueText(ms));
  }

  lemma {:induction false} MoreJoin(s: string, pos: nat, lead: Ws, key: seq<Piece>, mid: Ws, pre: Ws, j: Json,
                                    trail: Ws, rest: Members, sep: nat)
    returns (ms: Members)
    requires At(s, pos, pre) && At(s, pos + |pre|, Text(j)) && At(s, pos + |pre| + |Text(j)|, trail)
    requires sep == pos + |pre| + |Text(j)| + |trail| < |s| && s[sep] == ','
    requires At(s, sep + 1, MembersText(rest))
    requires AllPaired(j) && AllPairedMembers(rest)
    ensures ms.lead == lead && ms.key == key && ms.mid == mid
    ensures At(s, pos, MemberValueText(ms)) && AllPairedMember(ms)
  {
    ms := MoreMembers(lead, key, mid, pre, j, trail, rest);
    var tail := [','] + MembersText(rest);
    assert MembersTail(ms) == tail;
    AtFront(s, sep, ',', MembersText(rest));
    AtFour(s, pos, pre, Text(j), trail, tail, MemberValueText(ms));
  }

  // ---------------------------------------------------------------- the strict parser is the grammar

  ghost predicate Derives(d: Document, s: string, v: Value) {
    AllPaired(d.j) && DocumentText(d) == s && Meaning(d.j) == v
  }

  lemma {:induction false} DocumentPlaces(d: Document)
    ensures var s := DocumentText(d);
            var v := |d.lead|;
            var end := v + |Text(d.j)|;
            && SkipWs(s, 0) == v && At(s, v, Text(d.j)) && Stops(d.j, s, end)
            && end <= |s| && SkipWs(s, end) == |s|
  {
    var s := DocumentText(d);
    SliceAt(s, 0, s);
    AtConcat(s, 0, d.lead, Text(d.j) + d.trail);
    AtConcat(s, |d.lead|, Text(d.j), d.trail);
    TextStarts(d.j);
    SkipBlank(s, 0, d.lead);
    SkipBlank(s, |d.lead| + |Text(d.j)|, d.trail);
  }

  lemma {:induction false} StrictAcceptsDocument(d: Document)
    requires AllPaired(d.j)
    ensures StrictText(DocumentText(d)) == Some(Meaning(d.j))
  {
    DocumentPlaces(d);
    StrictReadsAfterSpace(DocumentText(d), 0, |d.lead|, d.j);
  }

  lemma {:induction false} AtWhole(s: string, t: string)
    requires At(s, 0, t) && |s| == |t|
    ensures s == t
  {
    AtSlice(s, 0, t);
    assert s[0..|t|] == s;
  }

  lemma {:induction false} StrictTextSound(s: string) returns (d: Document)
    requires StrictText(s).Some?
    ensures Derives(d, s, StrictText(s).value)
  {
    var lead, j, trail := SpacedSound(s, 0, StrictValue(s, 0).pos, |s|);
    d := Document(lead, j, trail);
    AtThree(s, 0, lead, Text(j), trail);
    AtWhole(s, DocumentText(d));
    StrictAcceptsDocument(d);
  }

  // Exactly the texts the grammar derives, with exactly their meaning.
  lemma {:induction false} StrictIsTheGrammar(s: string, v: Value)
    ensures StrictText(s) == Some(v) <==> exists d :: Derives(d, s, v)
  {
    if StrictText(s) == Some(v) {
      var d := StrictTextSound(s);
    }
    forall d | Derives(d, s, v)
      ensures StrictText(s) == Some(v)
    {
      StrictAcceptsDocument(d);
    }
  }
}
