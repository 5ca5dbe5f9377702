// A longer prefix of the same text: what stands in the shorter one still stands, and
// what was cut has come further or is whole.
module JsonArrivals {
  import opened Prelude
  import opened JsonNumbers
  import opened JsonText
  import opened JsonLexing
  import opened JsonPlaces
  import opened JsonCuts

  // As much of `t` has arrived at `pos` as the text holds.
  ghost predicate Arrives(q: string, pos: nat, t: string) {
    pos <= |q| && forall k {:trigger Asked(k)} :: Asked(k) ==> At(q, pos, t) || CutAt(q, pos, t)
  }

  lemma {:induction false} SkipSame(s: string, q: string, pos: nat)
    requires s <= q && pos <= |s| && SkipWs(s, pos) < |s|
    ensures SkipWs(q, pos) == SkipWs(s, pos)
    decreases |s| - pos
  {
    if JsonSpace(s[pos]) {
      SkipSame(s, q, pos + 1);
    }
  }

  lemma {:induction false} AtSame(s: string, q: string, pos: nat, t: string)
    requires s <= q && At(s, pos, t)
    ensures At(q, pos, t)
  {
    forall i | 0 <= i < |t| && Offset(i)
      ensures q[pos + i] == t[i]
    {
      assert s[pos + i] == t[i];
    }
  }

  lemma {:induction false} WholeNotCut(s: string, pos: nat, t: string)
    requires At(s, pos, t)
    ensures !CutAt(s, pos, t)
  {
  }

  // The part `a` that stands whole, and what has arrived after it.
  lemma {:induction false} ArrivesAfter(q: string, pos: nat, a: string, b: string)
    requires Arrives(q, pos, a + b) && At(q, pos, a)
    ensures Arrives(q, pos + |a|, b)
  {
    assert Asked(0);
    if At(q, pos, a + b) {
      AtConcat(q, pos, a, b);
    } else {
      CutSplit(q, pos, a, b);
    }
  }

  lemma {:induction false} ArrivesTail(q: string, pos: nat, t: string)
    requires t != [] && pos < |q| && Arrives(q, pos, t)
    ensures q[pos] == t[0] && Arrives(q, pos + 1, t[1..])
  {
    assert Asked(0);
    if At(q, pos, t) {
      AtCons(q, pos, t);
    } else {
      CutCons(q, pos, t);
    }
  }

  lemma {:induction false} ArrivesOn(q: string, pos: nat, c: char, rest: string)
    requires pos < |q| && Arrives(q, pos, [c] + rest)
    ensures q[pos] == c && Arrives(q, pos + 1, rest)
  {
    ArrivesTail(q, pos, [c] + rest);
    assert ([c] + rest)[1..] == rest;
  }

  // How far the text at `v` has arrived, where the first character of it has.
  predicate TextStands(q: string, pos: nat, text: string, v: nat) {
    CutInText(q, pos, text, v) || WholeText(q, pos, text, v, v + |text|)
  }

  lemma {:induction false} TextArrives(q: string, pos: nat, lead: Ws, text: string, trail: Ws, tail: string, v: nat)
    requires Begins(text) && Separates(tail)
    requires Arrives(q, pos, lead + (text + (trail + tail)))
    requires pos <= |q| && SkipWs(q, pos) == v < |q|
    ensures TextStands(q, pos, text, v)
  {
    assert Asked(0);
    if At(q, pos, lead + (text + (trail + tail))) {
      var v', end, sep := Spread(q, pos, lead, text, trail, tail);
    } else {
      var stage := CutSpread(q, pos, lead, text, trail, tail);
    }
  }

  lemma {:induction false} TailArrives(q: string, pos: nat, lead: Ws, text: string, trail: Ws, tail: string, v: nat,
                                       end: nat, sep: nat)
    requires Begins(text) && Separates(tail)
    requires Arrives(q, pos, lead + (text + (trail + tail)))
    requires pos <= |q| && SkipWs(q, pos) == v && At(q, v, text) && end == v + |text|
    requires SkipWs(q, end) == sep < |q|
    ensures q[sep] == tail[0] && Arrives(q, sep + 1, tail[1..])
  {
    assert Asked(0);
    if At(q, pos, lead + (text + (trail + tail))) {
      var v', end', sep' := Spread(q, pos, lead, text, trail, tail);
      ArrivesTail(q, sep, tail);
    } else {
      var stage := CutSpread(q, pos, lead, text, trail, tail);
    }
  }

  // What the shorter text shows whole, the longer one does too.
  lemma {:induction false} WholeSame(s: string, q: string, pos: nat, text: string, v: nat, end: nat)
    requires s <= q && WholeText(s, pos, text, v, end)
    ensures SkipWs(q, pos) == v && At(q, v, text)
  {
    SkipSame(s, q, pos);
    AtSame(s, q, v, text);
  }

  // ---------------------------------------------------------------- elements and members

  lemma {:induction false} ElemArrives(q: string, pos: nat, es: Elems, v: nat)
    requires Arrives(q, pos, ElemsText(es)) && pos <= |q| && SkipWs(q, pos) == v < |q|
    ensures TextStands(q, pos, Text(es.v), v) && q[v] != ']'
  {
    ElemsParts(es);
    TextStarts(es.v);
    TextArrives(q, pos, es.lead, Text(es.v), es.trail, ElemsTail(es), v);
    ArrivesTail(q, v, Text(es.v));
  }

  lemma {:induction false} ElemsTailArrives(q: string, pos: nat, es: Elems, v: nat, end: nat, sep: nat)
    requires Arrives(q, pos, ElemsText(es)) && pos <= |q| && SkipWs(q, pos) == v
    requires At(q, v, Text(es.v)) && end == v + |Text(es.v)| && SkipWs(q, end) == sep < |q|
    ensures q[sep] == if es.LastElem? then ']' else ','
    ensures es.MoreElems? ==> Arrives(q, sep + 1, ElemsText(es.rest))
  {
    ElemsParts(es);
    TextStarts(es.v);
    TailArrives(q, pos, es.lead, Text(es.v), es.trail, ElemsTail(es), v, end, sep);
    assert es.MoreElems? ==> ElemsTail(es)[1..] == ElemsText(es.rest);
  }

  lemma {:induction false} NameArrives(q: string, pos: nat, ms: Members, quote: nat, close: nat, colon: nat)
    requires Arrives(q, pos, MembersText(ms)) && pos <= |q| && SkipWs(q, pos) == quote
    requires At(q, quote, Quoted(ms.key)) && close == quote + |Quoted(ms.key)| && SkipWs(q, close) == colon < |q|
    ensures q[colon] == ':' && Arrives(q, colon + 1, MemberValueText(ms))
  {
    MembersParts(ms);
    QuotedStarts(ms.key);
    TailArrives(q, pos, ms.lead, Quoted(ms.key), ms.mid, ":" + MemberValueText(ms), quote, close, colon);
    assert (":" + MemberValueText(ms))[1..] == MemberValueText(ms);
  }

  lemma {:induction false} MemberArrives(q: string, pos: nat, ms: Members, v: nat)
    requires Arrives(q, pos, MemberValueText(ms)) && pos <= |q| && SkipWs(q, pos) == v < |q|
    ensures TextStands(q, pos, Text(ms.v), v)
  {
    TextStarts(ms.v);
    TextArrives(q, pos, ms.pre, Text(ms.v), ms.trail, MembersTail(ms), v);
  }

  lemma {:induction false} MembersTailArrives(q: string, pos: nat, ms: Members, v: nat, end: nat, sep: nat)
    requires Arrives(q, pos, MemberValueText(ms)) && pos <= |q| && SkipWs(q, pos) == v
    requires At(q, v, Text(ms.v)) && end == v + |Text(ms.v)| && SkipWs(q, end) == sep < |q|
    ensures q[sep] == if ms.LastMember? then '}' else ','
    ensures ms.MoreMembers? ==> Arrives(q, sep + 1, MembersText(ms.rest))
  {
    TextStarts(ms.v);
    TailArrives(q, pos, ms.pre, Text(ms.v), ms.trail, MembersTail(ms), v, end, sep);
    assert ms.MoreMembers? ==> MembersTail(ms)[1..] == MembersText(ms.rest);
  }
}
