// Where a text stops in the middle of a derivation.
module JsonCuts {
  import opened Prelude
  import opened JsonNumbers
  import opened JsonText
  import opened JsonLexing
  import opened JsonPlaces

  // `s` ends inside `t`, which starts at `pos`: what is there agrees with `t`.
  predicate CutAt(s: string, pos: nat, t: string) {
    pos <= |s| < pos + |t| && forall i {:trigger Offset(i)} :: 0 <= i < |s| - pos && Offset(i) ==> s[pos + i] == t[i]
  }

  lemma {:induction false} CutCons(s: string, pos: nat, t: string)
    requires CutAt(s, pos, t) && pos < |s|
    ensures s[pos] == t[0] && CutAt(s, pos + 1, t[1..])
  {
    assert Offset(0);
    forall i | 0 <= i < |s| - pos - 1 && Offset(i)
      ensures s[pos + 1 + i] == t[1..][i]
    {
      assert Offset(i + 1);
    }
  }

  lemma {:induction false} CutTail(s: string, pos: nat, c: char, rest: string)
    requires CutAt(s, pos, [c] + rest) && pos < |s|
    ensures s[pos] == c && CutAt(s, pos + 1, rest)
  {
    CutCons(s, pos, [c] + rest);
    assert ([c] + rest)[1..] == rest;
  }

  lemma {:induction false} CutSplit(s: string, pos: nat, a: string, b: string)
    requires CutAt(s, pos, a + b)
    ensures CutAt(s, pos, a) || (At(s, pos, a) && CutAt(s, pos + |a|, b))
  {
    if |s| < pos + |a| {
      forall i | 0 <= i < |s| - pos && Offset(i)
        ensures s[pos + i] == a[i]
      {
        assert (a + b)[i] == a[i];
      }
    } else {
      CutBeyond(s, pos, a, b);
    }
  }

  lemma {:induction false} CutBeyond(s: string, pos: nat, a: string, b: string)
    requires CutAt(s, pos, a + b) && pos + |a| <= |s|
    ensures At(s, pos, a) && CutAt(s, pos + |a|, b)
  {
    forall i | 0 <= i < |a| && Offset(i)
      ensures s[pos + i] == a[i]
    {
      assert (a + b)[i] == a[i];
    }
    forall i | 0 <= i < |s| - pos - |a| && Offset(i)
      ensures s[pos + |a| + i] == b[i]
    {
      assert Offset(|a| + i);
      assert (a + b)[|a| + i] == b[i];
    }
  }

  // A proper prefix is cut.
  lemma {:induction false} PrefixIsCut(s: string, pos: nat, t: string, n: nat)
    requires n < |t| && pos + n == |s| && s[pos..] == t[..n]
    ensures CutAt(s, pos, t)
  {
    forall i | 0 <= i < n && Offset(i)
      ensures s[pos + i] == t[i]
    {
      assert s[pos..][i] == t[..n][i];
    }
  }

  lemma {:induction false} CutIsPrefix(s: string, pos: nat, t: string)
    requires CutAt(s, pos, t)
    ensures |s| - pos < |t| && s[pos..] == t[..|s| - pos]
  {
    forall i | 0 <= i < |s| - pos
      ensures s[pos..][i] == t[..|s| - pos][i]
    {
      assert Offset(i);
    }
  }

  lemma {:induction false} SkipCutBlank(s: string, pos: nat, gap: Ws)
    requires CutAt(s, pos, gap)
    ensures SkipWs(s, pos) == |s|
    decreases |gap|
  {
    if pos < |s| {
      CutCons(s, pos, gap);
      BlankTail(gap);
      SkipCutBlank(s, pos + 1, gap[1..]);
    }
  }

  // Which part of `lead text trail tail` the end of `s` falls in, and where the parts
  // before it stand.
  datatype Stage =
    | InLead
    | InText(v: nat)
    | InTrail(v: nat, end: nat)
    | InTail(v: nat, end: nat, sep: nat)

  // The end falls in the leading gap, or right before the text.
  predicate CutInLead(s: string, pos: nat) {
    pos <= |s| && SkipWs(s, pos) == |s|
  }

  // The end falls after the first character of the text at `v`.
  predicate CutInText(s: string, pos: nat, text: string, v: nat) {
    pos <= |s| && SkipWs(s, pos) == v < |s| && CutAt(s, v, text)
  }

  // The text is whole, at `v`, and a number in it would stop at its end.
  predicate WholeText(s: string, pos: nat, text: string, v: nat, end: nat) {
    && pos <= |s| && SkipWs(s, pos) == v < |s| && At(s, v, text) && end == v + |text|
    && (end < |s| ==> !NumberChar(s[end]))
  }

  predicate CutInTrail(s: string, pos: nat, text: string, v: nat, end: nat) {
    WholeText(s, pos, text, v, end) && SkipWs(s, end) == |s|
  }

  predicate CutInTail(s: string, pos: nat, text: string, tail: string, v: nat, end: nat, sep: nat) {
    && WholeText(s, pos, text, v, end) && SkipWs(s, end) == sep < |s|
    && tail != [] && s[sep] == tail[0] && CutAt(s, sep + 1, tail[1..])
  }

  predicate Located(s: string, pos: nat, text: string, tail: string, stage: Stage) {
    match stage
    case InLead => CutInLead(s, pos)
    case InText(v) => CutInText(s, pos, text, v)
    case InTrail(v, end) => CutInTrail(s, pos, text, v, end)
    case InTail(v, end, sep) => CutInTail(s, pos, text, tail, v, end, sep)
  }

  lemma {:induction false} CutSpread(s: string, pos: nat, lead: Ws, text: string, trail: Ws, tail: string)
    returns (stage: Stage)
    requires Begins(text) && Separates(tail)
    requires CutAt(s, pos, lead + (text + (trail + tail)))
    ensures Located(s, pos, text, tail, stage)
  {
    CutSplit(s, pos, lead, text + (trail + tail));
    if CutAt(s, pos, lead) {
      SkipCutBlank(s, pos, lead);
      return InLead;
    }
    var v := pos + |lead|;
    SkipBlank(s, pos, lead);
    if v == |s| {
      return InLead;
    }
    CutSplit(s, v, text, trail + tail);
    if CutAt(s, v, text) {
      CutCons(s, v, text);
      return InText(v);
    }
    AtCons(s, v, text);
    stage := CutAfterText(s, pos, text, trail, tail, v, v + |text|);
  }

  lemma {:induction false} CutAfterText(s: string, pos: nat, text: string, trail: Ws, tail: string, v: nat, end: nat)
    returns (stage: Stage)
    requires Begins(text) && Separates(tail)
    requires pos <= |s| && SkipWs(s, pos) == v < |s| && At(s, v, text) && end == v + |text|
    requires CutAt(s, end, trail + tail)
    ensures Located(s, pos, text, tail, stage) && (stage.InTrail? || stage.InTail?)
  {
    CutSplit(s, end, trail, tail);
    CutStops(s, end, trail, tail);
    if CutAt(s, end, trail) {
      SkipCutBlank(s, end, trail);
      return InTrail(v, end);
    }
    SkipBlank(s, end, trail);
    var sep := end + |trail|;
    if sep == |s| {
      return InTrail(v, end);
    }
    CutCons(s, sep, tail);
    stage := InTail(v, end, sep);
  }

  // What follows a text, as far as it has come, does not prolong a number in it.
  lemma {:induction false} CutStops(s: string, end: nat, trail: Ws, tail: string)
    requires Separates(tail) && CutAt(s, end, trail + tail)
    ensures end < |s| ==> !NumberChar(s[end])
  {
    if end < |s| {
      CutCons(s, end, trail + tail);
      if trail != [] {
        BlankTail(trail);
      }
    }
  }

  // The stage of a cut list of elements.
  lemma {:induction false} ElemsCut(s: string, pos: nat, es: Elems) returns (stage: Stage)
    requires CutAt(s, pos, ElemsText(es))
    ensures Located(s, pos, Text(es.v), ElemsTail(es), stage)
  {
    ElemsParts(es);
    TextStarts(es.v);
    stage := CutSpread(s, pos, es.lead, Text(es.v), es.trail, ElemsTail(es));
  }

  // The stage of a cut list of members, up to the colon.
  lemma {:induction false} NameCut(s: string, pos: nat, ms: Members) returns (stage: Stage)
    requires CutAt(s, pos, MembersText(ms))
    ensures Located(s, pos, Quoted(ms.key), ":" + MemberValueText(ms), stage)
  {
    MembersParts(ms);
    QuotedStarts(ms.key);
    stage := CutSpread(s, pos, ms.lead, Quoted(ms.key), ms.mid, ":" + MemberValueText(ms));
  }

  // The stage of a cut member after its colon.
  lemma {:induction false} MemberCut(s: string, pos: nat, ms: Members) returns (stage: Stage)
    requires CutAt(s, pos, MemberValueText(ms))
    ensures Located(s, pos, Text(ms.v), MembersTail(ms), stage)
  {
    TextStarts(ms.v);
    stage := CutSpread(s, pos, ms.pre, Text(ms.v), ms.trail, MembersTail(ms));
  }

  // A list cut after a separator has more to come.
  lemma {:induction false} ElemsTailCut(s: string, pos: nat, es: Elems, v: nat, end: nat, sep: nat)
    requires CutInTail(s, pos, Text(es.v), ElemsTail(es), v, end, sep)
    ensures es.MoreElems? && s[sep] == ',' && CutAt(s, sep + 1, ElemsText(es.rest))
  {
    if es.MoreElems? {
      assert ElemsTail(es)[1..] == ElemsText(es.rest);
    }
  }

  lemma {:induction false} MembersTailCut(s: string, pos: nat, ms: Members, v: nat, end: nat, sep: nat)
    requires CutInTail(s, pos, Text(ms.v), MembersTail(ms), v, end, sep)
    ensures ms.MoreMembers? && s[sep] == ',' && CutAt(s, sep + 1, MembersText(ms.rest))
  {
    if ms.MoreMembers? {
      assert MembersTail(ms)[1..] == MembersText(ms.rest);
    }
  }

  lemma {:induction false} NameTailCut(s: string, pos: nat, ms: Members, quote: nat, close: nat, colon: nat)
    requires CutInTail(s, pos, Quoted(ms.key), ":" + MemberValueText(ms), quote, close, colon)
    ensures s[colon] == ':' && CutAt(s, colon + 1, MemberValueText(ms))
  {
    assert (":" + MemberValueText(ms))[1..] == MemberValueText(ms);
  }
}
