// Where the text of a derivation stands in the input.
module JsonPlaces {
  import opened Prelude
  import opened JsonNumbers
  import opened JsonText
  import opened JsonLexing

  // `t` stands in `s` at `pos`.
  predicate At(s: string, pos: nat, t: string) {
    pos + |t| <= |s| && forall i {:trigger Offset(i)} :: 0 <= i < |t| && Offset(i) ==> s[pos + i] == t[i]
  }

  lemma {:induction false} AtCons(s: string, pos: nat, t: string)
    requires At(s, pos, t) && t != []
    ensures s[pos] == t[0] && At(s, pos + 1, t[1..])
  {
    assert Offset(0);
    forall i | 0 <= i < |t| - 1 && Offset(i)
      ensures s[pos + 1 + i] == t[1..][i]
    {
      assert Offset(i + 1);
    }
  }

  lemma {:induction false} AtFront(s: string, pos: nat, c: char, rest: string)
    requires pos < |s| && s[pos] == c && At(s, pos + 1, rest)
    ensures At(s, pos, [c] + rest)
  {
    forall i | 0 <= i < |rest| + 1 && Offset(i)
      ensures s[pos + i] == ([c] + rest)[i]
    {
      assert Offset(i - 1);
    }
  }

  lemma {:induction false} AtConcat(s: string, pos: nat, a: string, b: string)
    requires At(s, pos, a + b)
    ensures At(s, pos, a) && At(s, pos + |a|, b)
  {
    forall i | 0 <= i < |a| && Offset(i)
      ensures s[pos + i] == a[i]
    {
      assert (a + b)[i] == a[i];
    }
    forall i | 0 <= i < |b| && Offset(i)
      ensures s[pos + |a| + i] == b[i]
    {
      assert Offset(|a| + i);
      assert (a + b)[|a| + i] == b[i];
    }
  }

  lemma {:induction false} AtJoin(s: string, pos: nat, a: string, b: string)
    requires At(s, pos, a) && At(s, pos + |a|, b)
    ensures At(s, pos, a + b)
  {
    forall i | 0 <= i < |a + b| && Offset(i)
      ensures s[pos + i] == (a + b)[i]
    {
      assert Offset(i - |a|);
    }
  }

  lemma {:induction false} AtSlice(s: string, pos: nat, t: string)
    requires At(s, pos, t)
    ensures s[pos..pos + |t|] == t
  {
    forall i | 0 <= i < |t|
      ensures s[pos..pos + |t|][i] == t[i]
    {
      assert Offset(i);
    }
  }

  lemma {:induction false} SliceAt(s: string, pos: nat, t: string)
    requires pos + |t| <= |s| && s[pos..pos + |t|] == t
    ensures At(s, pos, t)
  {
    forall i | 0 <= i < |t| && Offset(i)
      ensures s[pos + i] == t[i]
    {
      assert s[pos..pos + |t|][i] == t[i];
    }
  }

  lemma {:induction false} SkipBlank(s: string, pos: nat, gap: Ws)
    requires At(s, pos, gap)
    ensures SkipWs(s, pos) == SkipWs(s, pos + |gap|)
    decreases |gap|
  {
    if gap != [] {
      AtCons(s, pos, gap);
      BlankTail(gap);
      SkipBlank(s, pos + 1, gap[1..]);
    }
  }

  // Four consecutive parts.
  lemma {:induction false} AtParts(s: string, pos: nat, a: string, b: string, c: string, d: string)
    requires At(s, pos, a + (b + (c + d)))
    ensures At(s, pos, a) && At(s, pos + |a|, b) && At(s, pos + |a| + |b|, c) && At(s, pos + |a| + |b| + |c|, d)
  {
    AtConcat(s, pos, a, b + (c + d));
    AtConcat(s, pos + |a|, b, c + d);
    AtConcat(s, pos + |a| + |b|, c, d);
  }

  predicate Begins(t: string) {
    t != [] && !JsonSpace(t[0])
  }

  predicate Separates(t: string) {
    Begins(t) && !NumberChar(t[0])
  }

  // A text between two gaps, and the separator after it.
  lemma {:induction false} Spread(s: string, pos: nat, lead: Ws, text: string, trail: Ws, tail: string)
    returns (v: nat, end: nat, sep: nat)
    requires Begins(text) && Separates(tail)
    requires At(s, pos, lead + (text + (trail + tail)))
    ensures v == pos + |lead| && end == v + |text| && sep == end + |trail| && sep + |tail| <= |s|
    ensures At(s, pos, lead) && At(s, v, text) && At(s, sep, tail)
    ensures SkipWs(s, pos) == v && s[v] == text[0]
    ensures SkipWs(s, end) == sep && s[sep] == tail[0] && !NumberChar(s[end])
  {
    v, end, sep := pos + |lead|, pos + |lead| + |text|, pos + |lead| + |text| + |trail|;
    AtParts(s, pos, lead, text, trail, tail);
    AtCons(s, v, text);
    SkipBlank(s, pos, lead);
    AtCons(s, sep, tail);
    if trail != [] {
      AtCons(s, end, trail);
      BlankTail(trail);
    }
    SkipBlank(s, end, trail);
  }

  // ---------------------------------------------------------------- elements and members

  function ElemsTail(es: Elems): (t: string)
    ensures Separates(t)
  {
    if es.LastElem? then "]" else "," + ElemsText(es.rest)
  }

  lemma {:induction false} ElemsParts(es: Elems)
    ensures ElemsText(es) == es.lead + (Text(es.v) + (es.trail + ElemsTail(es)))
    ensures |ElemsText(es)| == |es.lead| + |Text(es.v)| + |es.trail| + |ElemsTail(es)|
  {
  }

  function MembersTail(ms: Members): (t: string)
    ensures Separates(t)
  {
    if ms.LastMember? then "}" else "," + MembersText(ms.rest)
  }

  function MemberValueText(ms: Members): string {
    ms.pre + (Text(ms.v) + (ms.trail + MembersTail(ms)))
  }

  lemma {:induction false} MembersParts(ms: Members)
    ensures MembersText(ms) == ms.lead + (Quoted(ms.key) + (ms.mid + (":" + MemberValueText(ms))))
    ensures |MembersText(ms)| == |ms.lead| + |Quoted(ms.key)| + |ms.mid| + 1 + |MemberValueText(ms)|
  {
  }

  lemma {:induction false} NumberStarts(n: NumberSyntax)
    ensures Begins(NumberToken(n))
    ensures NumberToken(n)[0] == '-' || Digit(NumberToken(n)[0])
  {
    assert Digit(n.whole[0]);
  }

  // The first character of a value decides how it is read.
  lemma {:induction false} TextStarts(j: Json)
    ensures Begins(Text(j)) && Text(j)[0] != ']' && Text(j)[0] != '}'
  {
    if j.JNumber? {
      NumberStarts(j.n);
    }
  }

  lemma {:induction false} QuotedStarts(ps: seq<Piece>)
    ensures Begins(Quoted(ps)) && Quoted(ps)[0] == '"' && Quoted(ps)[1..] == Rest(ps)
  {
  }

  // The text of the pieces, then the closing quote.
  function Rest(ps: seq<Piece>): string {
    PiecesText(ps) + "\""
  }

  lemma {:induction false} RestParts(ps: seq<Piece>)
    requires ps != []
    ensures Rest(ps) == PieceText(ps[0]) + Rest(ps[1..])
  {
  }

  lemma {:induction false} RestFirst(s: string, pos: nat, ps: seq<Piece>)
    requires ps != [] && At(s, pos, Rest(ps))
    ensures At(s, pos, PieceText(ps[0])) && At(s, pos + |PieceText(ps[0])|, Rest(ps[1..]))
  {
    RestParts(ps);
    AtConcat(s, pos, PieceText(ps[0]), Rest(ps[1..]));
  }

  // The element at the front of a list, located.
  lemma {:induction false} ElemPlaces(s: string, pos: nat, es: Elems) returns (v: nat, end: nat, sep: nat)
    requires At(s, pos, ElemsText(es))
    ensures SkipWs(s, pos) == v < |s| && s[v] != ']'
    ensures At(s, v, Text(es.v)) && end == v + |Text(es.v)| <= |s|
    ensures end <= sep < |s| && SkipWs(s, end) == sep && !NumberChar(s[end])
    ensures s[sep] == if es.LastElem? then ']' else ','
    ensures es.LastElem? ==> pos + |ElemsText(es)| == sep + 1
    ensures es.MoreElems? ==>
            At(s, sep + 1, ElemsText(es.rest)) &&
            pos + |ElemsText(es)| == sep + 1 + |ElemsText(es.rest)|
  {
    ElemsParts(es);
    TextStarts(es.v);
    v, end, sep := Spread(s, pos, es.lead, Text(es.v), es.trail, ElemsTail(es));
    if es.MoreElems? {
      TailPlaces(s, sep, ',', ElemsText(es.rest));
    }
  }

  // The rest of a list after its separator.
  lemma {:induction false} TailPlaces(s: string, sep: nat, c: char, rest: string)
    requires At(s, sep, [c] + rest)
    ensures sep < |s| && s[sep] == c && At(s, sep + 1, rest)
  {
    AtCons(s, sep, [c] + rest);
    assert ([c] + rest)[1..] == rest;
  }

  // The name at the front of a list of members, located.
  lemma {:induction false} NamePlaces(s: string, pos: nat, ms: Members) returns (quote: nat, close: nat, colon: nat)
    requires At(s, pos, MembersText(ms))
    ensures SkipWs(s, pos) == quote < |s| && s[quote] == '"'
    ensures At(s, quote + 1, Rest(ms.key)) && close == quote + 1 + |Rest(ms.key)| <= |s|
    ensures close <= colon < |s| && SkipWs(s, close) == colon && s[colon] == ':'
    ensures At(s, colon + 1, MemberValueText(ms))
    ensures pos + |MembersText(ms)| == colon + 1 + |MemberValueText(ms)|
  {
    MembersParts(ms);
    QuotedStarts(ms.key);
    quote, close, colon := Spread(s, pos, ms.lead, Quoted(ms.key), ms.mid, ":" + MemberValueText(ms));
    AtCons(s, quote, Quoted(ms.key));
    TailPlaces(s, colon, ':', MemberValueText(ms));
  }

  // Its value, located.
  lemma {:induction false} MemberPlaces(s: string, pos: nat, ms: Members) returns (v: nat, end: nat, sep: nat)
    requires At(s, pos, MemberValueText(ms))
    ensures SkipWs(s, pos) == v < |s|
    ensures At(s, v, Text(ms.v)) && end == v + |Text(ms.v)| <= |s|
    ensures end <= sep < |s| && SkipWs(s, end) == sep && !NumberChar(s[end])
    ensures s[sep] == if ms.LastMember? then '}' else ','
    ensures ms.LastMember? ==> pos + |MemberValueText(ms)| == sep + 1
    ensures ms.MoreMembers? ==>
            At(s, sep + 1, MembersText(ms.rest)) &&
            pos + |MemberValueText(ms)| == sep + 1 + |MembersText(ms.rest)|
  {
    TextStarts(ms.v);
    v, end, sep := Spread(s, pos, ms.pre, Text(ms.v), ms.trail, MembersTail(ms));
    if ms.MoreMembers? {
      TailPlaces(s, sep, ',', MembersText(ms.rest));
    }
  }
}
