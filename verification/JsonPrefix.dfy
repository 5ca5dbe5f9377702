// A text that stops in the middle of a derivation, wherever it stops, is repaired:
// no prefix of a JSON text is ever reported as invalid.
module JsonPrefix {
  import opened Prelude
  import opened JsonNumbers
  import opened JsonText
  import opened JsonLexing
  import opened JsonPlaces
  import opened PartialJson
  import opened JsonReading
  import opened JsonCuts
  import opened JsonStrict

  // ---------------------------------------------------------------- escapes

  lemma {:induction false} HexCut(s: string, pos: nat, h: HexQuad)
    requires CutAt(s, pos, h)
    ensures Hex4(s, pos) == (None, |s|)
  {
    HexFromCut(s, pos, h, 4, 0);
  }

  lemma {:induction false} HexFromCut(s: string, pos: nat, h: string, left: nat, value: nat)
    requires |h| == left && CutAt(s, pos, h) && forall k :: 0 <= k < left ==> HexDigit(h[k]).Some?
    ensures HexFrom(s, pos, left, value) == (None, |s|)
    decreases left
  {
    if pos < |s| {
      assert HexDigit(h[0]).Some?;
      CutCons(s, pos, h);
      assert forall k :: 0 <= k < left - 1 ==> h[1..][k] == h[k + 1];
      HexFromCut(s, pos + 1, h[1..], left - 1, value * 16 + HexDigit(s[pos]).value);
    }
  }

  // A `\u` escape cut by the end of the text.
  lemma {:induction false} UnicodeCut(s: string, pos: nat, h: HexQuad)
    requires CutAt(s, pos, PieceText(Hex(h)))
    ensures IsUnicodeStart(s, pos) ==> Hex4(s, pos + 2) == (None, |s|)
    ensures pos + 1 < |s| ==> IsUnicodeStart(s, pos)
    ensures pos < |s| ==> s[pos] == '\\'
  {
    assert PieceText(Hex(h)) == ['\\'] + (['u'] + h);
    if pos < |s| {
      CutTail(s, pos, '\\', ['u'] + h);
    }
    if pos + 1 < |s| {
      CutTail(s, pos + 1, 'u', h);
      HexCut(s, pos + 2, h);
    }
  }

  // ---------------------------------------------------------------- strings

  // The first piece stands whole at `pos`, and what follows it is cut.
  predicate FirstWhole(s: string, pos: nat, ps: seq<Piece>) {
    ps != [] && At(s, pos, PieceText(ps[0])) && CutAt(s, pos + |PieceText(ps[0])|, Rest(ps[1..]))
  }

  lemma {:induction false} CutFirst(s: string, pos: nat, ps: seq<Piece>)
    requires ps != [] && CutAt(s, pos, Rest(ps))
    ensures CutAt(s, pos, PieceText(ps[0])) || FirstWhole(s, pos, ps)
  {
    RestParts(ps);
    CutSplit(s, pos, PieceText(ps[0]), Rest(ps[1..]));
  }

  // Whether a low surrogate stands whole at `pos`.
  predicate LowAt(s: string, pos: nat, ps: seq<Piece>) {
    ps != [] && ps[0].Hex? && IsLow(HexValue(ps[0].h)) && At(s, pos, PieceText(ps[0]))
  }

  lemma {:induction false} NoLowInCut(s: string, pos: nat, ps: seq<Piece>)
    requires CutAt(s, pos, Rest(ps)) && !LowAt(s, pos, ps)
    ensures !(IsUnicodeStart(s, pos) && Hex4(s, pos + 2).0.Some? && IsLow(Hex4(s, pos + 2).0.value))
  {
    if ps != [] {
      CutFirst(s, pos, ps);
      if CutAt(s, pos, PieceText(ps[0])) {
        NoLowInCutPiece(s, pos, ps[0]);
      } else {
        match ps[0]
        case Plain(c) => AtCons(s, pos, [c]);
        case Esc(e) => EscPieceAt(s, pos, e);
        case Hex(h) => HexPieceAt(s, pos, h);
      }
    }
  }

  lemma {:induction false} NoLowInCutPiece(s: string, pos: nat, p: Piece)
    requires CutAt(s, pos, PieceText(p))
    ensures !(IsUnicodeStart(s, pos) && Hex4(s, pos + 2).0.Some?)
  {
    if p.Hex? {
      UnicodeCut(s, pos, p.h);
    }
  }

  lemma {:induction false} PieceCut(s: string, pos: nat, p: Piece, out: string)
    requires CutAt(s, pos, PieceText(p))
    ensures StringFrom(s, pos, out) == Parsed(Cut(String(out)), |s|)
  {
    match p
    case Plain(_) =>
    case Esc(e) =>
      if pos < |s| {
        CutCons(s, pos, ['\\', e]);
      }
    case Hex(h) => UnicodeCut(s, pos, h);
  }

  // The first piece is read on its own, unless it and the next are a whole pair.
  lemma {:induction false} CutStep(s: string, pos: nat, ps: seq<Piece>, out: string)
    requires FirstWhole(s, pos, ps)
    requires !(PairAhead(ps) && LowAt(s, pos + 6, ps[1..]))
    ensures StringFrom(s, pos, out) ==
            StringFrom(s, pos + |PieceText(ps[0])|,
                       out + [if IsSurrogate(ps[0]) then REPLACEMENT else PieceChar(ps[0])])
  {
    match ps[0]
    case Plain(c) => AtCons(s, pos, [c]);
    case Esc(e) => EscPieceAt(s, pos, e);
    case Hex(h) =>
      HexPieceAt(s, pos, h);
      if IsHigh(HexValue(h)) {
        NoLowInCut(s, pos + 6, ps[1..]);
      }
  }

  lemma {:induction false} CutPairStep(s: string, pos: nat, ps: seq<Piece>, out: string)
    requires PairAhead(ps) && FirstWhole(s, pos, ps) && LowAt(s, pos + 6, ps[1..])
    ensures StringFrom(s, pos, out) ==
            StringFrom(s, pos + 12, out + [Combine(HexValue(ps[0].h), HexValue(ps[1].h))])
    ensures CutAt(s, pos + 12, Rest(ps[2..]))
  {
    HexPieceAt(s, pos, ps[0].h);
    HexPieceAt(s, pos + 6, ps[1].h);
    CutFirst(s, pos + 6, ps[1..]);
    assert ps[1..][1..] == ps[2..];
  }

  lemma {:induction false} StringCut(s: string, pos: nat, ps: seq<Piece>, out: string)
    requires CutAt(s, pos, Rest(ps))
    ensures StringFrom(s, pos, out).outcome.Cut?
    decreases |ps|
  {
    if ps != [] {
      CutFirst(s, pos, ps);
      if CutAt(s, pos, PieceText(ps[0])) {
        PieceCut(s, pos, ps[0], out);
      } else if PairAhead(ps) && LowAt(s, pos + 6, ps[1..]) {
        CutPairStep(s, pos, ps, out);
        StringCut(s, pos + 12, ps[2..], out + [Combine(HexValue(ps[0].h), HexValue(ps[1].h))]);
      } else {
        CutStep(s, pos, ps, out);
        var c := if IsSurrogate(ps[0]) then REPLACEMENT else PieceChar(ps[0]);
        StringCut(s, pos + |PieceText(ps[0])|, ps[1..], out + [c]);
      }
    }
  }

  lemma {:induction false} QuotedCut(s: string, v: nat, ps: seq<Piece>)
    requires v < |s| && CutAt(s, v, Quoted(ps))
    ensures s[v] == '"' && CutAt(s, v + 1, Rest(ps))
  {
    QuotedStarts(ps);
    CutCons(s, v, Quoted(ps));
  }

  // ---------------------------------------------------------------- numbers and literals

  // Stripping what a truncated number ends in leaves a number, or nothing.
  lemma {:induction false} BestOfPrefix(p: string)
    requires NumRun(Start, p) != Dead
    ensures BestNumber(p).Empty? || BestNumber(p).Cut?
    ensures BestNumber(p).Cut? ==>
            exists k :: 0 < k <= |p| && ValidNumber(p[..k]) && BestNumber(p) == Cut(Number(p[..k]))
    decreases |p|
  {
    if ValidNumber(p) {
      assert p[..|p|] == p;
    } else if p != "" {
      var most, last := p[..|p| - 1], p[|p| - 1];
      assert p == most + [last];
      NumRunSnoc(Start, most, last);
      BestOfPrefix(most);
      if BestNumber(most).Cut? {
        var k :| 0 < k <= |most| && ValidNumber(most[..k]) && BestNumber(most) == Cut(Number(most[..k]));
        assert p[..k] == most[..k];
      }
    }
  }

  // Every prefix of a number keeps the automaton alive.
  lemma {:induction false} PrefixAlive(token: string, n: nat)
    requires ValidNumber(token) && n <= |token|
    ensures NumRun(Start, token[..n]) != Dead
  {
    assert token == token[..n] + token[n..];
    NumRunAppend(Start, token[..n], token[n..]);
    DeadStaysDead(token[n..]);
  }

  lemma {:induction false} NumberCut(s: string, v: nat, n: NumberSyntax)
    requires v < |s| && CutAt(s, v, NumberToken(n))
    ensures NumberEnd(s, v) == |s| && NumRun(Start, s[v..]) != Dead
    ensures s[v..] <= NumberToken(n)
    ensures NumberAt(s, v) ==
            Parsed(if ValidNumber(s[v..]) then Done(Number(s[v..])) else BestNumber(s[v..]), |s|)
  {
    var token := NumberToken(n);
    NumberAccepted(n);
    CutIsPrefix(s, v, token);
    PrefixAlive(token, |s| - v);
    LiveRunHasNumberChars(Start, s[v..]);
    assert s[v..v + |s[v..]|] == s[v..];
    SliceAt(s, v, s[v..]);
    NumberEndIs(s, v, s[v..]);
    assert s[v..|s|] == s[v..];
  }

  lemma {:induction false} LiteralCut(s: string, pos: nat, word: string, value: Value)
    requires CutAt(s, pos, word)
    ensures LiteralFrom(s, pos, word, value) == Parsed(Cut(value), |s|)
    decreases |word|
  {
    if pos < |s| {
      CutCons(s, pos, word);
      LiteralCut(s, pos + 1, word[1..], value);
    }
  }

  // ---------------------------------------------------------------- parser steps at a cut

  // How a value stops: never badly, and at the end of the text.
  predicate Truncated(r: Parsed, s: string) {
    r.pos == |s| && !r.outcome.Bad?
  }

  lemma {:induction false} ElemEmpty(s: string, pos: nat, items: seq<Value>)
    requires CutInLead(s, pos)
    ensures ArrayFrom(s, pos, items) == Parsed(Cut(Array(items)), |s|)
  {
  }

  lemma {:induction false} ElemTruncated(s: string, pos: nat, items: seq<Value>, v: nat, r: Parsed)
    requires pos <= |s| && SkipWs(s, pos) == v < |s| && s[v] != ']'
    requires r == ValueAt(s, v) && Truncated(r, s)
    ensures ArrayFrom(s, pos, items) ==
            Parsed(Cut(Array(if r.outcome.Empty? then items else items + [r.outcome.value])), |s|)
  {
    assert SkipWs(s, |s|) == |s|;
  }

  lemma {:induction false} ElemLast(s: string, pos: nat, items: seq<Value>, v: nat, value: Value, end: nat)
    requires pos <= |s| && SkipWs(s, pos) == v < |s| && s[v] != ']'
    requires ValueAt(s, v) == Parsed(Done(value), end) && SkipWs(s, end) == |s|
    ensures ArrayFrom(s, pos, items) == Parsed(Cut(Array(items + [value])), |s|)
  {
  }

  lemma {:induction false} NameTruncated(s: string, pos: nat, members: map<string, Value>, quote: nat)
    requires pos <= |s| && SkipWs(s, pos) == quote < |s| && s[quote] == '"'
    requires StringFrom(s, quote + 1, "").outcome.Cut?
    ensures ObjectFrom(s, pos, members) == Parsed(Cut(Object(members)), |s|)
  {
  }

  lemma {:induction false} MemberEmpty(s: string, colon: nat, members: map<string, Value>, key: string)
    requires colon < |s| && s[colon] == ':' && CutInLead(s, colon + 1)
    ensures MemberFrom(s, colon, members, key) == Parsed(Cut(Object(members)), |s|)
  {
  }

  lemma {:induction false} MemberTruncated(s: string, colon: nat, members: map<string, Value>, key: string, r: Parsed)
    requires colon < |s| && s[colon] == ':'
    requires r == ValueAt(s, colon + 1) && Truncated(r, s)
    ensures MemberFrom(s, colon, members, key) ==
            Parsed(Cut(Object(if r.outcome.Empty? then members else members[key := r.outcome.value])), |s|)
  {
    assert SkipWs(s, |s|) == |s|;
  }

  lemma {:induction false} MemberLast(s: string, colon: nat, members: map<string, Value>, key: string, value: Value,
                                      end: nat)
    requires colon < |s| && s[colon] == ':'
    requires ValueAt(s, colon + 1) == Parsed(Done(value), end) && SkipWs(s, end) == |s|
    ensures MemberFrom(s, colon, members, key) == Parsed(Cut(Object(members[key := value])), |s|)
  {
  }

  // ---------------------------------------------------------------- what stands whole before a cut

  // A number cannot run on into whitespace and a separator.
  lemma {:induction false} GapStops(q: string, end: nat)
    requires end <= |q| && SkipWs(q, end) < |q| && !NumberChar(q[SkipWs(q, end)])
    ensures !NumberChar(q[end])
  {
  }

  // The element and the separator after it are whole.
  lemma {:induction false} ElemPasses(q: string, pos: nat, es: Elems, items: seq<Value>, v: nat, end: nat, sep: nat)
    requires pos <= |q| && SkipWs(q, pos) == v && At(q, v, Text(es.v)) && end == v + |Text(es.v)|
    requires SkipWs(q, end) == sep < |q| && q[sep] == (if es.LastElem? then ']' else ',')
    ensures ArrayFrom(q, pos, items) ==
            if es.LastElem? then Parsed(Done(Array(items + [Meaning(es.v)])), sep + 1)
            else ArrayFrom(q, sep + 1, items + [Meaning(es.v)])
  {
    assert v < |q| && q[v] != ']' by {
      TextStarts(es.v);
      AtCons(q, v, Text(es.v));
    }
    assert ValueAt(q, v) == Parsed(Done(Meaning(es.v)), end) by {
      GapStops(q, end);
      ValueReads(q, v, es.v);
    }
    ElemStep(q, pos, items, v, Meaning(es.v), end, sep);
  }

  lemma {:induction false} ElemCutPasses(s: string, pos: nat, es: Elems, items: seq<Value>, v: nat, end: nat, sep: nat)
    requires CutInTail(s, pos, Text(es.v), ElemsTail(es), v, end, sep)
    ensures es.MoreElems? && CutAt(s, sep + 1, ElemsText(es.rest))
    ensures ArrayFrom(s, pos, items) == ArrayFrom(s, sep + 1, items + [Meaning(es.v)])
  {
    ElemsTailCut(s, pos, es, v, end, sep);
    ElemPasses(s, pos, es, items, v, end, sep);
  }

  lemma {:induction false} ElemIsLast(s: string, pos: nat, es: Elems, items: seq<Value>, v: nat, end: nat)
    requires CutInTrail(s, pos, Text(es.v), v, end)
    ensures ArrayFrom(s, pos, items) == Parsed(Cut(Array(items + [Meaning(es.v)])), |s|)
  {
    TextStarts(es.v);
    ValueReads(s, v, es.v);
    ElemLast(s, pos, items, v, Meaning(es.v), end);
  }

  // The name and the colon after it are whole.
  lemma {:induction false} NamePasses(q: string, pos: nat, ms: Members, members: map<string, Value>, quote: nat,
                                      close: nat, colon: nat)
    requires pos <= |q| && SkipWs(q, pos) == quote && At(q, quote, Quoted(ms.key)) && close == quote + |Quoted(ms.key)|
    requires SkipWs(q, close) == colon
    ensures ObjectFrom(q, pos, members) == MemberFrom(q, colon, members, PiecesValue(ms.key))
  {
    QuotedReads(q, quote, ms.key);
    NameStep(q, pos, members, quote, close, colon, PiecesValue(ms.key));
  }

  // The member and the separator after it are whole.
  lemma {:induction false} MemberPasses(q: string, colon: nat, ms: Members, members: map<string, Value>, key: string,
                                        v: nat, end: nat, sep: nat)
    requires colon < |q| && q[colon] == ':' && SkipWs(q, colon + 1) == v && At(q, v, Text(ms.v)) &&
             end == v + |Text(ms.v)|
    requires SkipWs(q, end) == sep < |q| && q[sep] == (if ms.LastMember? then '}' else ',')
    ensures MemberFrom(q, colon, members, key) ==
            var so := members[key := Meaning(ms.v)];
            if ms.LastMember? then Parsed(Done(Object(so)), sep + 1) else ObjectFrom(q, sep + 1, so)
  {
    assert ValueAt(q, colon + 1) == Parsed(Done(Meaning(ms.v)), end) by {
      GapStops(q, end);
      ValueReadsAfterSpace(q, colon + 1, v, ms.v);
    }
    MemberStep(q, colon, members, key, Meaning(ms.v), end, sep);
  }

  lemma {:induction false} MemberCutPasses(s: string, colon: nat, ms: Members, members: map<string, Value>, key: string,
                                           v: nat, end: nat, sep: nat)
    requires colon < |s| && s[colon] == ':' && CutInTail(s, colon + 1, Text(ms.v), MembersTail(ms), v, end, sep)
    ensures ms.MoreMembers? && CutAt(s, sep + 1, MembersText(ms.rest))
    ensures MemberFrom(s, colon, members, key) ==
            ObjectFrom(s, sep + 1, members[key := Meaning(ms.v)])
  {
    MembersTailCut(s, colon + 1, ms, v, end, sep);
    MemberPasses(s, colon, ms, members, key, v, end, sep);
  }

  lemma {:induction false} MemberIsLast(s: string, colon: nat, ms: Members, members: map<string, Value>, key: string,
                                        v: nat, end: nat)
    requires colon < |s| && s[colon] == ':' && CutInTrail(s, colon + 1, Text(ms.v), v, end)
    ensures MemberFrom(s, colon, members, key) ==
            Parsed(Cut(Object(members[key := Meaning(ms.v)])), |s|)
  {
    ValueReadsAfterSpace(s, colon + 1, v, ms.v);
    MemberLast(s, colon, members, key, Meaning(ms.v), end);
  }

  // ---------------------------------------------------------------- values

  lemma {:induction false} ValueCut(s: string, v: nat, j: Json)
    requires CutAt(s, v, Text(j))
    ensures Truncated(ValueAt(s, v), s)
    decreases j, 0
  {
    if v < |s| {
      match j
      case JArray(elems) =>
        CutTail(s, v, '[', ElemsText(elems));
        ElemsAreCut(s, v + 1, elems, []);
      case JObject(members) =>
        CutTail(s, v, '{', MembersText(members));
        MembersAreCut(s, v + 1, members, map[]);
      case _ => LeafCut(s, v, j);
    }
  }

  lemma {:induction false} LeafCut(s: string, v: nat, j: Json)
    requires v < |s| && CutAt(s, v, Text(j)) && !j.JArray? && !j.JObject?
    ensures Truncated(ValueAt(s, v), s)
  {
    CutCons(s, v, Text(j));
    match j
    case JNull => LiteralCut(s, v, "null", Null);
    case JTrue => LiteralCut(s, v, "true", Bool(true));
    case JFalse => LiteralCut(s, v, "false", Bool(false));
    case JNumber(n) => NumberValueCut(s, v, n);
    case JString(ps) =>
      QuotedCut(s, v, ps);
      StringCut(s, v + 1, ps, "");
    case JEmptyArray(gap) =>
      CutTail(s, v, '[', gap + "]");
      CloseCut(s, v + 1, gap, ']');
    case JEmptyObject(gap) =>
      CutTail(s, v, '{', gap + "}");
      CloseCut(s, v + 1, gap, '}');
  }

  lemma {:induction false} NumberValueCut(s: string, v: nat, n: NumberSyntax)
    requires v < |s| && CutAt(s, v, NumberToken(n))
    ensures ValueAt(s, v) == NumberAt(s, v) && Truncated(NumberAt(s, v), s)
  {
    NumberIsChosen(s, v, n);
    NumberCut(s, v, n);
    BestIsUsable(s[v..]);
  }

  lemma {:induction false} NumberIsChosen(s: string, v: nat, n: NumberSyntax)
    requires v < |s| && CutAt(s, v, NumberToken(n))
    ensures ValueAt(s, v) == NumberAt(s, v)
  {
    NumberStarts(n);
    CutCons(s, v, NumberToken(n));
  }

  lemma {:induction false} BestIsUsable(p: string)
    requires NumRun(Start, p) != Dead
    ensures !BestNumber(p).Bad?
  {
    BestOfPrefix(p);
  }

  lemma {:induction false} CloseCut(s: string, pos: nat, gap: Ws, close: char)
    requires CutAt(s, pos, gap + [close])
    ensures SkipWs(s, pos) == |s|
  {
    CutSplit(s, pos, gap, [close]);
    if CutAt(s, pos, gap) {
      SkipCutBlank(s, pos, gap);
    } else {
      SkipBlank(s, pos, gap);
    }
  }

  lemma {:induction false} ElemsAreCut(s: string, pos: nat, es: Elems, items: seq<Value>)
    requires CutAt(s, pos, ElemsText(es))
    ensures ArrayFrom(s, pos, items).outcome.Cut? && ArrayFrom(s, pos, items).pos == |s|
    decreases es, 0, 1
  {
    var stage := ElemsCut(s, pos, es);
    match stage
    case InLead => ElemEmpty(s, pos, items);
    case InText(v) => ElemTextIsCut(s, pos, es, items, v);
    case InTrail(v, end) => ElemIsLast(s, pos, es, items, v, end);
    case InTail(v, end, sep) =>
      ElemCutPasses(s, pos, es, items, v, end, sep);
      ElemsAreCut(s, sep + 1, es.rest, items + [Meaning(es.v)]);
  }

  lemma {:induction false} ElemTextIsCut(s: string, pos: nat, es: Elems, items: seq<Value>, v: nat)
    requires CutInText(s, pos, Text(es.v), v)
    ensures ArrayFrom(s, pos, items).outcome.Cut? && ArrayFrom(s, pos, items).pos == |s|
    decreases es, 0, 0
  {
    TextStarts(es.v);
    CutCons(s, v, Text(es.v));
    ValueCut(s, v, es.v);
    ElemTruncated(s, pos, items, v, ValueAt(s, v));
  }

  lemma {:induction false} MembersAreCut(s: string, pos: nat, ms: Members, members: map<string, Value>)
    requires CutAt(s, pos, MembersText(ms))
    ensures ObjectFrom(s, pos, members).outcome.Cut? && ObjectFrom(s, pos, members).pos == |s|
    decreases ms, 2
  {
    var stage := NameCut(s, pos, ms);
    match stage
    case InLead =>
    case InText(quote) =>
      QuotedCut(s, quote, ms.key);
      StringCut(s, quote + 1, ms.key, "");
      NameTruncated(s, pos, members, quote);
    case InTrail(quote, close) => NamePasses(s, pos, ms, members, quote, close, |s|);
    case InTail(quote, close, colon) =>
      NamePasses(s, pos, ms, members, quote, close, colon);
      NameTailCut(s, pos, ms, quote, close, colon);
      MemberIsCut(s, colon, ms, members, PiecesValue(ms.key), MemberFrom(s, colon, members, PiecesValue(ms.key)));
  }

  lemma {:induction false} QuotedReads(s: string, quote: nat, ps: seq<Piece>)
    requires At(s, quote, Quoted(ps))
    ensures quote < |s| && s[quote] == '"'
    ensures StringFrom(s, quote + 1, "") == Parsed(Done(String(PiecesValue(ps))), quote + |Quoted(ps)|)
  {
    QuotedStarts(ps);
    AtCons(s, quote, Quoted(ps));
    NameReads(s, quote + 1, ps);
  }

  lemma {:induction false} MemberIsCut(s: string, colon: nat, ms: Members, members: map<string, Value>, key: string,
                                       r: Parsed)
    requires colon < |s| && s[colon] == ':' && CutAt(s, colon + 1, MemberValueText(ms))
    requires r == MemberFrom(s, colon, members, key)
    ensures r.outcome.Cut? && r.pos == |s|
    decreases ms, 1
  {
    var stage := MemberCut(s, colon + 1, ms);
    match stage
    case InLead => MemberEmpty(s, colon, members, key);
    case InText(v) => ValueIsCut(s, colon, ms, members, key, v, r);
    case InTrail(v, end) => MemberIsLast(s, colon, ms, members, key, v, end);
    case InTail(v, end, sep) => RestIsCut(s, colon, ms, members, key, v, end, sep, r);
  }

  lemma {:induction false} RestIsCut(s: string, colon: nat, ms: Members, members: map<string, Value>, key: string,
                                     v: nat, end: nat, sep: nat, r: Parsed)
    requires colon < |s| && s[colon] == ':' && CutInTail(s, colon + 1, Text(ms.v), MembersTail(ms), v, end, sep)
    requires r == MemberFrom(s, colon, members, key)
    ensures r.outcome.Cut? && r.pos == |s|
    decreases ms, 0
  {
    MemberCutPasses(s, colon, ms, members, key, v, end, sep);
    MembersAreCut(s, sep + 1, ms.rest, members[key := Meaning(ms.v)]);
  }

  lemma {:induction false} ValueIsCut(s: string, colon: nat, ms: Members, members: map<string, Value>, key: string,
                                      v: nat, r: Parsed)
    requires colon < |s| && s[colon] == ':' && CutInText(s, colon + 1, Text(ms.v), v)
    requires r == MemberFrom(s, colon, members, key)
    ensures r.outcome.Cut? && r.pos == |s|
    decreases ms, 0
  {
    ValueCutAfterSpace(s, colon + 1, v, ms.v);
    MemberTruncated(s, colon, members, key, ValueAt(s, colon + 1));
  }

  lemma {:induction false} ValueCutAfterSpace(s: string, pos: nat, v: nat, j: Json)
    requires CutInText(s, pos, Text(j), v)
    ensures Truncated(ValueAt(s, pos), s)
    decreases j, 1
  {
    ValueCut(s, v, j);
    ValueAfterSpace(s, pos, v);
  }

  // ---------------------------------------------------------------- whole texts

  // How the tolerant parser leaves a text that stops inside a document.
  lemma {:induction false} DocumentCut(s: string, d: Document)
    requires CutAt(s, 0, DocumentText(d))
    ensures CutInLead(s, 0) || Truncated(ValueAt(s, 0), s) ||
            (ValueAt(s, 0).outcome.Done? && SkipWs(s, ValueAt(s, 0).pos) == |s|)
  {
    CutSplit(s, 0, d.lead, Text(d.j) + d.trail);
    if CutAt(s, 0, d.lead) {
      SkipCutBlank(s, 0, d.lead);
    } else {
      SkipBlank(s, 0, d.lead);
      var v := |d.lead|;
      TextStarts(d.j);
      if v < |s| {
        CutCons(s, v, Text(d.j) + d.trail);
        BodyCut(s, v, d);
      }
    }
  }

  lemma {:induction false} BodyCut(s: string, v: nat, d: Document)
    requires v < |s| && SkipWs(s, 0) == v && CutAt(s, v, Text(d.j) + d.trail)
    ensures Truncated(ValueAt(s, 0), s) || (ValueAt(s, 0).outcome.Done? && SkipWs(s, ValueAt(s, 0).pos) == |s|)
  {
    CutSplit(s, v, Text(d.j), d.trail);
    if CutAt(s, v, Text(d.j)) {
      ValueCutAfterSpace(s, 0, v, d.j);
    } else {
      SkipCutBlank(s, v + |Text(d.j)|, d.trail);
      ValueReadsAfterSpace(s, 0, v, d.j);
    }
  }

  // Whatever prefix of a JSON text has arrived, it is not reported as invalid. Unpaired
  // surrogates are allowed in the text.
  lemma {:induction false} NoPrefixIsInvalid(d: Document, s: string)
    requires s <= DocumentText(d)
    ensures Parse(s) != Invalid
  {
    if |s| < |DocumentText(d)| {
      PrefixIsCut(s, 0, DocumentText(d), |s|);
      DocumentCut(s, d);
      assert SkipWs(s, |s|) == |s|;
    } else {
      assert s == DocumentText(d);
      WholeTextReads(d);
    }
  }

  // The tolerant parser alone consumes a whole document and returns its meaning.
  lemma {:induction false} WholeTextReads(d: Document)
    ensures var s := DocumentText(d);
            ValueAt(s, 0).outcome == Done(Meaning(d.j)) && SkipWs(s, ValueAt(s, 0).pos) == |s|
  {
    DocumentPlaces(d);
    PlacedReads(DocumentText(d), |d.lead|, d.j);
  }

  lemma {:induction false} PlacedReads(s: string, v: nat, j: Json)
    requires SkipWs(s, 0) == v && At(s, v, Text(j)) && Stops(j, s, v + |Text(j)|) && SkipWs(s, v + |Text(j)|) == |s|
    ensures ValueAt(s, 0).outcome == Done(Meaning(j)) && SkipWs(s, ValueAt(s, 0).pos) == |s|
  {
    ValueReadsAfterSpace(s, 0, v, j);
  }

  // Conservative extension: on every text the strict parser accepts, the tolerant
  // parser alone returns the same value and leaves only whitespace.
  lemma {:induction false} TolerantExtendsStrict(s: string)
    requires StrictText(s).Some?
    ensures ValueAt(s, 0).outcome == Done(StrictText(s).value) && SkipWs(s, ValueAt(s, 0).pos) == |s|
  {
    var d := StrictTextSound(s);
    WholeTextReads(d);
  }

  // A complete text parses to what the strict parser says, and nothing else does.
  lemma {:induction false} CompleteIsStrict(s: string, v: Value)
    ensures Parse(s) == Complete(v) <==> exists d :: Derives(d, s, v)
  {
    StrictIsTheGrammar(s, v);
  }
}
