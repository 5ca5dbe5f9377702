// The converse of what snapshots promise: the texts whose snapshots do not improve.
module JsonConverse {
  import opened Prelude
  import opened JsonNumbers
  import opened JsonText
  import opened JsonLexing
  import opened JsonPlaces
  import opened PartialJson
  import opened JsonReading
  import opened JsonCuts
  import opened JsonStrict
  import opened JsonPrefix
  import opened JsonArrivals
  import opened JsonOrder
  import opened JsonSnapshots

  // ---------------------------------------------------------------- the two conditions

  // No name is repeated within an object.
  predicate DistinctNames(j: Json) {
    match j
    case JArray(es) => DistinctInElems(es)
    case JObject(ms) => DistinctInMembers(ms, {})
    case _ => true
  }

  predicate DistinctInElems(es: Elems) {
    DistinctNames(es.v) && (es.MoreElems? ==> DistinctInElems(es.rest))
  }

  predicate DistinctInMembers(ms: Members, seen: set<string>)
    decreases ms, 1
  {
    DistinctInMember(ms, seen, PiecesValue(ms.key))
  }

  predicate DistinctInMember(ms: Members, seen: set<string>, key: string)
    decreases ms, 0
  {
    key !in seen && DistinctNames(ms.v) && (ms.MoreMembers? ==> DistinctInMembers(ms.rest, seen + {key}))
  }

  // No string value holds a surrogate pair.
  predicate PairFree(j: Json) {
    match j
    case JString(ps) => NoPairs(ps)
    case JArray(es) => PairFreeElems(es)
    case JObject(ms) => PairFreeMembers(ms)
    case _ => true
  }

  predicate PairFreeElems(es: Elems) {
    PairFree(es.v) && (es.MoreElems? ==> PairFreeElems(es.rest))
  }

  predicate PairFreeMembers(ms: Members) {
    PairFree(ms.v) && (ms.MoreMembers? ==> PairFreeMembers(ms.rest))
  }

  lemma {:induction false} SteadyIsBoth(j: Json)
    ensures Steady(j) <==> DistinctNames(j) && PairFree(j)
    decreases j
  {
    match j
    case JArray(es) => SteadyElemsAreBoth(es);
    case JObject(ms) => SteadyMembersAreBoth(ms, {});
    case _ =>
  }

  lemma {:induction false} SteadyElemsAreBoth(es: Elems)
    ensures SteadyElems(es) <==> DistinctInElems(es) && PairFreeElems(es)
    decreases es
  {
    SteadyIsBoth(es.v);
    if es.MoreElems? {
      SteadyElemsAreBoth(es.rest);
    }
  }

  lemma {:induction false} SteadyMembersAreBoth(ms: Members, seen: set<string>)
    ensures SteadyMembers(ms, seen) <==> DistinctInMembers(ms, seen) && PairFreeMembers(ms)
    decreases ms
  {
    SteadyIsBoth(ms.v);
    if ms.MoreMembers? {
      SteadyMembersAreBoth(ms.rest, seen + {PiecesValue(ms.key)});
    }
  }

  // ---------------------------------------------------------------- cutting a whole text

  lemma {:induction false} AtPrefix(q: string, n: nat, pos: nat, t: string)
    requires At(q, pos, t) && pos + |t| <= n <= |q|
    ensures At(q[..n], pos, t)
  {
    AtSlice(q, pos, t);
    assert q[..n][pos..pos + |t|] == q[pos..pos + |t|];
    SliceAt(q[..n], pos, t);
  }

  lemma {:induction false} CutPrefix(q: string, n: nat, pos: nat, t: string)
    requires At(q, pos, t) && pos <= n < pos + |t|
    ensures CutAt(q[..n], pos, t)
  {
    forall i | 0 <= i < n - pos && Offset(i)
      ensures q[..n][pos + i] == t[i]
    {
      assert q[pos + i] == t[i];
    }
  }

  lemma {:induction false} SkipPrefix(q: string, n: nat, pos: nat)
    requires pos <= n <= |q|
    ensures SkipWs(q[..n], pos) == if SkipWs(q, pos) < n then SkipWs(q, pos) else n
    decreases n - pos
  {
    if pos < n && JsonSpace(q[pos]) {
      SkipPrefix(q, n, pos + 1);
    }
  }

  // ---------------------------------------------------------------- half a pair

  lemma {:induction false} CombinedIsNotReplacement(high: nat, low: nat)
    requires IsHigh(high) && IsLow(low)
    ensures !Below(String([REPLACEMENT]), String([Combine(high, low)]))
  {
    assert Combine(high, low) as int >= 0x10000;
    assert [REPLACEMENT][0] != [Combine(high, low)][0];
  }

  // A cut between the halves of the first pair of a string: what is shown ends in U+FFFD,
  // and the whole string does not begin with that.
  lemma {:induction false} StringShowsHalf(q: string, pos: nat, ps: seq<Piece>, out: string) returns (n: nat, x: string)
    requires At(q, pos, Rest(ps)) && !NoPairs(ps)
    ensures pos < n < pos + |Rest(ps)| && StringFrom(q[..n], pos, out) == Parsed(Cut(String(x)), n)
    ensures !(x <= out + PiecesValue(ps))
    decreases |ps|
  {
    RestFirst(q, pos, ps);
    RestParts(ps);
    if PairAhead(ps) {
      n, x := PairShowsHalf(q, pos, ps, out);
    } else {
      var next, c := pos + |PieceText(ps[0])|, FirstChar(ps);
      n, x := StringShowsHalf(q, next, ps[1..], out + [c]);
      PiecesValueStep(ps, out);
      AtPrefix(q, n, pos, PieceText(ps[0]));
      CutPrefix(q, n, pos, Rest(ps));
      StringGoesOn(q[..n], pos, ps, out);
    }
  }

  lemma {:induction false} PairShowsHalf(q: string, pos: nat, ps: seq<Piece>, out: string) returns (n: nat, x: string)
    requires At(q, pos, Rest(ps)) && PairAhead(ps)
    ensures n == pos + 6 < pos + |Rest(ps)| && StringFrom(q[..n], pos, out) == Parsed(Cut(String(x)), n)
    ensures !(x <= out + PiecesValue(ps))
  {
    RestFirst(q, pos, ps);
    RestParts(ps);
    n, x := pos + 6, out + [REPLACEMENT];
    var s := q[..n];
    AtPrefix(q, n, pos, PieceText(ps[0]));
    HexPieceAt(s, pos, ps[0].h);
    assert StringFrom(s, n, x) == Parsed(Cut(String(x)), n);
    var whole := out + PiecesValue(ps);
    CombinedIsNotReplacement(HexValue(ps[0].h), HexValue(ps[1].h));
    assert whole[|out|] == Combine(HexValue(ps[0].h), HexValue(ps[1].h));
    assert x[|out|] == REPLACEMENT;
  }

  // ---------------------------------------------------------------- inside a value

  lemma {:induction false} ValueShowsHalf(q: string, v: nat, j: Json) returns (n: nat, x: Value)
    requires At(q, v, Text(j)) && DistinctNames(j) && !PairFree(j)
    ensures v < n < v + |Text(j)| && ValueAt(q[..n], v) == Parsed(Cut(x), n)
    ensures !Below(x, Meaning(j)) && (j.JObject? ==> x.Object?)
    decreases j, 0
  {
    match j
    case JString(ps) => n, x := QuotedShowsHalf(q, v, ps);
    case JArray(es) => n, x := ArrayShowsHalf(q, v, es);
    case JObject(ms) => n, x := ObjectShowsHalf(q, v, ms);
  }

  lemma {:induction false} QuotedShowsHalf(q: string, v: nat, ps: seq<Piece>) returns (n: nat, x: Value)
    requires At(q, v, Quoted(ps)) && !NoPairs(ps)
    ensures v < n < v + |Quoted(ps)| && ValueAt(q[..n], v) == Parsed(Cut(x), n)
    ensures !Below(x, String(PiecesValue(ps)))
  {
    QuotedStarts(ps);
    AtCons(q, v, Quoted(ps));
    var text;
    n, text := StringShowsHalf(q, v + 1, ps, "");
    x := String(text);
    assert "" + PiecesValue(ps) == PiecesValue(ps);
    ValueOpens(q[..n], v);
  }

  lemma {:induction false} ArrayShowsHalf(q: string, v: nat, es: Elems) returns (n: nat, x: Value)
    requires At(q, v, "[" + ElemsText(es)) && DistinctInElems(es) && !PairFreeElems(es)
    ensures v < n < v + 1 + |ElemsText(es)| && ValueAt(q[..n], v) == Parsed(Cut(x), n)
    ensures !Below(x, Array(ElemsMeaning(es)))
    decreases es, 2
  {
    TailPlaces(q, v, '[', ElemsText(es));
    var xs;
    n, xs := ElemsShowHalf(q, v + 1, es, []);
    x := Array(xs);
    assert [] + xs == xs;
    ValueOpens(q[..n], v);
    HalfIsNotBelow(xs, ElemsMeaning(es));
  }

  lemma {:induction false} HalfIsNotBelow(xs: seq<Value>, whole: seq<Value>)
    requires ShowsHalf(xs, whole)
    ensures !Below(Array(xs), Array(whole))
  {
  }

  lemma {:induction false} ObjectShowsHalf(q: string, v: nat, ms: Members) returns (n: nat, x: Value)
    requires At(q, v, "{" + MembersText(ms)) && DistinctInMembers(ms, {}) && !PairFreeMembers(ms)
    ensures v < n < v + 1 + |MembersText(ms)| && ValueAt(q[..n], v) == Parsed(Cut(x), n)
    ensures x.Object? && !Below(x, Object(MembersMeaning(ms, map[])))
    decreases ms, 3
  {
    TailPlaces(q, v, '{', MembersText(ms));
    var shown, key;
    n, shown, key := MembersShowHalf(q, v + 1, ms, map[], {});
    x := Object(shown);
    ValueOpens(q[..n], v);
  }

  // The elements shown before the cut, the last one not below its whole.
  ghost predicate ShowsHalf(xs: seq<Value>, whole: seq<Value>) {
    0 < |xs| <= |whole| && !Below(xs[|xs| - 1], whole[|xs| - 1])
  }

  lemma {:induction false} ElemsShowHalf(q: string, pos: nat, es: Elems, items: seq<Value>)
    returns (n: nat, xs: seq<Value>)
    requires At(q, pos, ElemsText(es)) && DistinctInElems(es) && !PairFreeElems(es)
    ensures pos < n < pos + |ElemsText(es)| && ArrayFrom(q[..n], pos, items) == Parsed(Cut(Array(items + xs)), n)
    ensures ShowsHalf(xs, ElemsMeaning(es))
    decreases es, 1
  {
    var v, end, sep := ElemPlaces(q, pos, es);
    if !PairFree(es.v) {
      n, xs := ElemShowsHalf(q, pos, es, items, v, end);
    } else {
      var more;
      n, more := ElemsShowHalf(q, sep + 1, es.rest, items + [Meaning(es.v)]);
      xs := [Meaning(es.v)] + more;
      LaterElemShows(q, n, pos, es, items, more, v, end, sep);
      MoreShowsHalf(es, more);
    }
  }

  lemma {:induction false} LaterElemShows(q: string, n: nat, pos: nat, es: Elems, items: seq<Value>, more: seq<Value>,
                                          v: nat, end: nat, sep: nat)
    requires pos <= |q| && SkipWs(q, pos) == v && At(q, v, Text(es.v)) && end == v + |Text(es.v)| <= |q|
    requires es.MoreElems? && SkipWs(q, end) == sep < n <= |q| && q[sep] == ','
    requires ArrayFrom(q[..n], sep + 1, items + [Meaning(es.v)]) ==
             Parsed(Cut(Array((items + [Meaning(es.v)]) + more)), n)
    ensures ArrayFrom(q[..n], pos, items) == Parsed(Cut(Array(items + ([Meaning(es.v)] + more))), n)
  {
    ElemPassesPrefix(q, n, pos, es, items, v, end, sep);
    assert (items + [Meaning(es.v)]) + more == items + ([Meaning(es.v)] + more);
  }

  lemma {:induction false} MoreShowsHalf(es: Elems, more: seq<Value>)
    requires es.MoreElems? && ShowsHalf(more, ElemsMeaning(es.rest))
    ensures ShowsHalf([Meaning(es.v)] + more, ElemsMeaning(es))
  {
    assert ElemsMeaning(es)[|more|] == ElemsMeaning(es.rest)[|more| - 1];
  }

  lemma {:induction false} ElemPassesPrefix(q: string, n: nat, pos: nat, es: Elems, items: seq<Value>, v: nat, end: nat,
                                            sep: nat)
    requires pos <= |q| && SkipWs(q, pos) == v && At(q, v, Text(es.v)) && end == v + |Text(es.v)| <= |q|
    requires es.MoreElems? && SkipWs(q, end) == sep < n <= |q| && q[sep] == ','
    ensures ArrayFrom(q[..n], pos, items) == ArrayFrom(q[..n], sep + 1, items + [Meaning(es.v)])
  {
    SkipPrefix(q, n, pos);
    SkipPrefix(q, n, end);
    AtPrefix(q, n, v, Text(es.v));
    ElemPasses(q[..n], pos, es, items, v, end, sep);
  }

  lemma {:induction false} ElemShowsHalf(q: string, pos: nat, es: Elems, items: seq<Value>, v: nat, end: nat)
    returns (n: nat, xs: seq<Value>)
    requires pos <= |q| && SkipWs(q, pos) == v < |q| &&
             q[v] != ']' && At(q, v, Text(es.v)) && end == v + |Text(es.v)| <= |q|
    requires DistinctNames(es.v) && !PairFree(es.v)
    ensures v < n < end && ArrayFrom(q[..n], pos, items) == Parsed(Cut(Array(items + xs)), n)
    ensures ShowsHalf(xs, ElemsMeaning(es))
    decreases es, 0
  {
    var x;
    n, x := ValueShowsHalf(q, v, es.v);
    xs := [x];
    SkipPrefix(q, n, pos);
    ElemTruncated(q[..n], pos, items, v, ValueAt(q[..n], v));
  }

  // A name that is not repeated keeps its value.
  lemma {:induction false} NamesKept(ms: Members, members: map<string, Value>, seen: set<string>)
    requires members.Keys == seen && DistinctInMembers(ms, seen)
    ensures forall k :: k in members ==>
              k in MembersMeaning(ms, members) && MembersMeaning(ms, members)[k] == members[k]
    decreases ms
  {
    var key := PiecesValue(ms.key);
    if ms.MoreMembers? {
      NamesKept(ms.rest, members[key := Meaning(ms.v)], seen + {key});
    }
  }

  // The members shown before the cut, one of them not below its whole.
  ghost predicate ShowsHalfOf(shown: map<string, Value>, key: string, whole: map<string, Value>) {
    key in shown && key in whole && !Below(shown[key], whole[key])
  }

  lemma {:induction false} MembersShowHalf(q: string, pos: nat, ms: Members, members: map<string, Value>,
                                           seen: set<string>)
    returns (n: nat, shown: map<string, Value>, key: string)
    requires At(q, pos, MembersText(ms)) && members.Keys == seen && DistinctInMembers(ms, seen) && !PairFreeMembers(ms)
    ensures pos < n < pos + |MembersText(ms)| && ObjectFrom(q[..n], pos, members) == Parsed(Cut(Object(shown)), n)
    ensures ShowsHalfOf(shown, key, MembersMeaning(ms, members))
    decreases ms, 2
  {
    var quote, close, colon := NamePlaces(q, pos, ms);
    var name := PiecesValue(ms.key);
    n, shown, key := MemberShowsHalf(q, colon, ms, members, seen, name);
    NamePrefix(q, n, pos, ms, members, quote, close, colon);
  }

  // A cut after the colon leaves the name as it is.
  lemma {:induction false} NamePrefix(q: string, n: nat, pos: nat, ms: Members, members: map<string, Value>, quote: nat,
                                      close: nat, colon: nat)
    requires pos <= |q| && SkipWs(q, pos) == quote < |q| && q[quote] == '"' && At(q, quote + 1, Rest(ms.key))
    requires close == quote + 1 + |Rest(ms.key)| <= colon < n <= |q| && SkipWs(q, close) == colon
    ensures ObjectFrom(q[..n], pos, members) == MemberFrom(q[..n], colon, members, PiecesValue(ms.key))
  {
    SkipPrefix(q, n, pos);
    SkipPrefix(q, n, close);
    AtPrefix(q, n, quote + 1, Rest(ms.key));
    NameReads(q[..n], quote + 1, ms.key);
    NameStep(q[..n], pos, members, quote, close, colon, PiecesValue(ms.key));
  }

  lemma {:induction false} MemberShowsHalf(q: string, colon: nat, ms: Members, members: map<string, Value>,
                                           seen: set<string>, name: string)
    returns (n: nat, shown: map<string, Value>, key: string)
    requires colon < |q| && q[colon] == ':' && At(q, colon + 1, MemberValueText(ms))
    requires members.Keys == seen && DistinctInMember(ms, seen, name) && !PairFreeMembers(ms)
    ensures colon < n < colon + 1 + |MemberValueText(ms)| &&
            MemberFrom(q[..n], colon, members, name) == Parsed(Cut(Object(shown)), n)
    ensures ShowsHalfOf(shown, key, MemberMeaning(ms, members, name))
    decreases ms, 1
  {
    var v, end, sep := MemberPlaces(q, colon + 1, ms);
    if !PairFree(ms.v) {
      n, shown := LastMemberShowsHalf(q, colon, ms, members, name, v, end);
      key := name;
      NameIsKept(ms, members, seen, name);
    } else {
      n, shown, key := RestShowsHalf(q, colon, ms, members, seen, name, v, end, sep);
    }
  }

  // The pair is in a later member.
  lemma {:induction false} RestShowsHalf(q: string, colon: nat, ms: Members, members: map<string, Value>,
                                         seen: set<string>, name: string, v: nat, end: nat, sep: nat)
    returns (n: nat, shown: map<string, Value>, key: string)
    requires colon < |q| && q[colon] == ':' && SkipWs(q, colon + 1) == v && At(q, v, Text(ms.v)) &&
             end == v + |Text(ms.v)| <= |q|
    requires ms.MoreMembers? && SkipWs(q, end) == sep < |q| && q[sep] == ',' && At(q, sep + 1, MembersText(ms.rest))
    requires members.Keys == seen && DistinctInMembers(ms.rest, seen + {name}) && !PairFreeMembers(ms.rest)
    ensures sep < n < sep + 1 + |MembersText(ms.rest)| &&
            MemberFrom(q[..n], colon, members, name) == Parsed(Cut(Object(shown)), n)
    ensures ShowsHalfOf(shown, key, MemberMeaning(ms, members, name))
    decreases ms, 0
  {
    n, shown, key := MembersShowHalf(q, sep + 1, ms.rest, members[name := Meaning(ms.v)], seen + {name});
    LaterMemberShows(q, n, colon, ms, members, name, v, end, sep, shown);
    MemberMeaningStep(ms, members, name);
  }

  lemma {:induction false} LaterMemberShows(q: string, n: nat, colon: nat, ms: Members, members: map<string, Value>,
                                            name: string, v: nat, end: nat, sep: nat, shown: map<string, Value>)
    requires colon < |q| && q[colon] == ':' && SkipWs(q, colon + 1) == v && At(q, v, Text(ms.v)) &&
             end == v + |Text(ms.v)| <= |q|
    requires ms.MoreMembers? && SkipWs(q, end) == sep < n <= |q| && q[sep] == ','
    requires ObjectFrom(q[..n], sep + 1, members[name := Meaning(ms.v)]) == Parsed(Cut(Object(shown)), n)
    ensures MemberFrom(q[..n], colon, members, name) == Parsed(Cut(Object(shown)), n)
  {
    MemberPassesPrefix(q, n, colon, ms, members, name, v, end, sep);
  }

  lemma {:induction false} NameIsKept(ms: Members, members: map<string, Value>, seen: set<string>, name: string)
    requires members.Keys == seen && DistinctInMember(ms, seen, name)
    ensures name in MemberMeaning(ms, members, name) && MemberMeaning(ms, members, name)[name] == Meaning(ms.v)
  {
    MemberMeaningStep(ms, members, name);
    if ms.MoreMembers? {
      NamesKept(ms.rest, members[name := Meaning(ms.v)], seen + {name});
    }
  }

  // A cut after the comma leaves the member as it is.
  lemma {:induction false} MemberPassesPrefix(q: string, n: nat, colon: nat, ms: Members, members: map<string, Value>,
                                              name: string, v: nat, end: nat, sep: nat)
    requires colon < |q| && q[colon] == ':' && SkipWs(q, colon + 1) == v && At(q, v, Text(ms.v)) &&
             end == v + |Text(ms.v)| <= |q|
    requires ms.MoreMembers? && SkipWs(q, end) == sep < n <= |q| && q[sep] == ','
    ensures MemberFrom(q[..n], colon, members, name) == ObjectFrom(q[..n], sep + 1, members[name := Meaning(ms.v)])
  {
    SkipPrefix(q, n, colon + 1);
    SkipPrefix(q, n, end);
    AtPrefix(q, n, v, Text(ms.v));
    MemberPasses(q[..n], colon, ms, members, name, v, end, sep);
  }

  lemma {:induction false} LastMemberShowsHalf(q: string, colon: nat, ms: Members, members: map<string, Value>,
                                               name: string, v: nat, end: nat)
    returns (n: nat, shown: map<string, Value>)
    requires colon < |q| && q[colon] == ':' && SkipWs(q, colon + 1) == v < |q| && At(q, v, Text(ms.v)) &&
             end == v + |Text(ms.v)| <= |q|
    requires DistinctNames(ms.v) && !PairFree(ms.v)
    ensures v < n < end && MemberFrom(q[..n], colon, members, name) == Parsed(Cut(Object(shown)), n)
    ensures name in shown && !Below(shown[name], Meaning(ms.v))
    decreases ms, 0
  {
    var x;
    n, x := ValueShowsHalf(q, v, ms.v);
    shown := members[name := x];
    SkipPrefix(q, n, colon + 1);
    CutMemberShows(q[..n], colon, members, name, v, x);
  }

  lemma {:induction false} CutMemberShows(s: string, colon: nat, members: map<string, Value>, name: string, v: nat,
                                          x: Value)
    requires colon < |s| && s[colon] == ':' && SkipWs(s, colon + 1) == v && ValueAt(s, v) == Parsed(Cut(x), |s|)
    ensures MemberFrom(s, colon, members, name) == Parsed(Cut(Object(members[name := x])), |s|)
  {
    ValueAfterSpace(s, colon + 1, v);
    MemberTruncated(s, colon, members, name, ValueAt(s, colon + 1));
  }

  // ---------------------------------------------------------------- exactly when

  ghost predicate Improved(p: string, q: string) {
    Parse(p) != Invalid && Parse(q) != Invalid && Below(Parse(p).value, Parse(q).value)
  }

  // While `text` arrives, every snapshot is above every one before it.
  ghost predicate AlwaysImproves(text: string) {
    forall p, q :: p <= q && q <= text ==> Improved(p, q)
  }

  predicate IsObject(j: Json) {
    j.JObject? || j.JEmptyObject?
  }

  lemma {:induction false} WholeIsShown(d: Document)
    ensures Parse(DocumentText(d)) != Invalid && Parse(DocumentText(d)).value == Meaning(d.j)
  {
    SnapshotIs(d, DocumentText(d));
    WholeTextReads(d);
  }

  lemma {:induction false} NothingImprovesToNoObject(d: Document)
    requires !IsObject(d.j)
    ensures !AlwaysImproves(DocumentText(d))
  {
    WholeIsShown(d);
    SnapshotIs(d, "");
    assert ValueAt("", 0).outcome.Empty?;
    assert !Improved("", DocumentText(d));
    assert "" <= DocumentText(d);
  }

  lemma {:induction false} HalfAPairIsShown(d: Document)
    requires IsObject(d.j) && DistinctNames(d.j) && !PairFree(d.j)
    ensures !AlwaysImproves(DocumentText(d))
  {
    var q, v := DocumentText(d), |d.lead|;
    DocumentPlaces(d);
    var n, x := ValueShowsHalf(q, v, d.j);
    SkipPrefix(q, n, 0);
    ValueAfterSpace(q[..n], 0, v);
    SnapshotIs(d, q[..n]);
    WholeIsShown(d);
    assert !Improved(q[..n], q);
  }

  // For every text without repeated names: each snapshot improves on those before it if
  // and only if the top value is an object and no string value holds a surrogate pair.
  lemma {:induction false} SnapshotsImproveExactly(d: Document)
    requires DistinctNames(d.j)
    ensures AlwaysImproves(DocumentText(d)) <==> IsObject(d.j) && PairFree(d.j)
  {
    SteadyIsBoth(d.j);
    if !IsObject(d.j) {
      NothingImprovesToNoObject(d);
    } else if !PairFree(d.j) {
      HalfAPairIsShown(d);
    } else {
      forall p, q | p <= q && q <= DocumentText(d)
        ensures Improved(p, q)
      {
        SnapshotsImprove(d, p, q);
      }
    }
  }

  // ---------------------------------------------------------------- a repeated name

  // `{"name":first,"name":second}`.
  function Repeating(name: seq<Piece>, first: Json, second: Json): Document {
    Document("", JObject(MoreMembers("", name, "", "", first, "", LastMember("", name, "", "", second, ""))), "")
  }

  // After the first of two members of one name its value is shown, and at the end the other's.
  lemma {:induction false} RepeatedNameReplaces(name: seq<Piece>, first: Json, second: Json) returns (n: nat)
    ensures var text, key := DocumentText(Repeating(name, first, second)), PiecesValue(name);
            && n <= |text|
            && Parse(text[..n]) != Invalid && Parse(text[..n]).value == Object(map[key := Meaning(first)])
            && Parse(text) != Invalid && Parse(text).value == Object(map[key := Meaning(second)])
  {
    var d := Repeating(name, first, second);
    assert DocumentText(d) == "{" + MembersText(d.j.members);
    n := FirstOfObjectShown(DocumentText(d), d.j.members);
    SnapshotIs(d, DocumentText(d)[..n]);
    WholeIsShown(d);
    RepeatingMeans(name, first, second);
  }

  lemma {:induction false} FirstOfObjectShown(q: string, ms: Members) returns (n: nat)
    requires q == "{" + MembersText(ms) && ms.MoreMembers?
    ensures n <= |q| && ValueAt(q[..n], 0) == Parsed(Cut(Object(map[PiecesValue(ms.key) := Meaning(ms.v)])), n)
  {
    SliceAt(q, 0, q);
    TailPlaces(q, 0, '{', MembersText(ms));
    n := FirstOfTwoShown(q, ms);
    ValueOpens(q[..n], 0);
  }

  lemma {:induction false} RepeatingMeans(name: seq<Piece>, first: Json, second: Json)
    ensures Meaning(Repeating(name, first, second).j) == Object(map[PiecesValue(name) := Meaning(second)])
  {
    var ms, key := Repeating(name, first, second).j.members, PiecesValue(name);
    MemberMeaningStep(ms, map[], key);
    MemberMeaningStep(ms.rest, map[key := Meaning(first)], key);
    assert map[key := Meaning(first)][key := Meaning(second)] == map[key := Meaning(second)];
  }

  lemma {:induction false} FirstOfTwoShown(q: string, ms: Members) returns (n: nat)
    requires At(q, 1, MembersText(ms)) && ms.MoreMembers?
    ensures 1 < n <= |q| && ObjectFrom(q[..n], 1, map[]) ==
            Parsed(Cut(Object(map[PiecesValue(ms.key) := Meaning(ms.v)])), n)
  {
    var quote, close, colon := NamePlaces(q, 1, ms);
    n := FirstMemberPlaced(q, colon, ms, PiecesValue(ms.key));
    NamePrefix(q, n, 1, ms, map[], quote, close, colon);
  }

  lemma {:induction false} FirstMemberPlaced(q: string, colon: nat, ms: Members, key: string) returns (n: nat)
    requires colon < |q| && q[colon] == ':' && At(q, colon + 1, MemberValueText(ms))
    ensures colon < n <= |q| && MemberFrom(q[..n], colon, map[], key) ==
            Parsed(Cut(Object(map[key := Meaning(ms.v)])), n)
  {
    var v, end, sep := MemberPlaces(q, colon + 1, ms);
    n := end;
    TextStarts(ms.v);
    SkipPrefix(q, n, colon + 1);
    AtPrefix(q, n, v, Text(ms.v));
    FirstMemberShown(q[..n], colon, ms.v, v, key);
  }

  lemma {:induction false} FirstMemberShown(s: string, colon: nat, first: Json, v: nat, key: string)
    requires colon < v < |s| && s[colon] == ':' && SkipWs(s, colon + 1) == v && At(s, v, Text(first)) &&
             |s| == v + |Text(first)|
    ensures MemberFrom(s, colon, map[], key) == Parsed(Cut(Object(map[key := Meaning(first)])), |s|)
  {
    ValueReadsAfterSpace(s, colon + 1, v, first);
    MemberLast(s, colon, map[], key, Meaning(first), |s|);
  }

  // `{"a":[],"a":0}`: the array first shown is replaced by a number.
  lemma {:induction false} RepeatedNamesDoNotImprove()
    ensures !AlwaysImproves("{\"a\":[],\"a\":0}")
  {
    var name, zero := [Plain('a')], NumberText(false, "0", None, None);
    var text := DocumentText(Repeating(name, JEmptyArray(""), JNumber(zero)));
    var n := RepeatedNameReplaces(name, JEmptyArray(""), JNumber(zero));
    WitnessText(name, zero);
    ReplacementRefutes(text, n, PiecesValue(name), Array([]), Number("0"));
  }

  // A member's value never improves to one of another kind.
  lemma {:induction false} ReplacementRefutes(text: string, n: nat, key: string, first: Value, second: Value)
    requires n <= |text| && !Below(first, second)
    requires Parse(text[..n]) != Invalid && Parse(text[..n]).value == Object(map[key := first])
    requires Parse(text) != Invalid && Parse(text).value == Object(map[key := second])
    ensures !AlwaysImproves(text)
  {
    assert key in map[key := first];
    assert !Improved(text[..n], text);
  }

  lemma {:induction false} WitnessText(name: seq<Piece>, zero: NumberSyntax)
    requires name == [Plain('a')] && zero == NumberText(false, "0", None, None)
    ensures DocumentText(Repeating(name, JEmptyArray(""), JNumber(zero))) == "{\"a\":[],\"a\":0}"
    ensures NumberToken(zero) == "0"
  {
    assert name[1..] == [] && PiecesText(name) == "a";
    assert Quoted(name) == "\"a\"";
    var ms := Repeating(name, JEmptyArray(""), JNumber(zero)).j.members;
    TightMember(ms.rest, "\"a\"", "0");
    TightMember(ms, "\"a\"", "[]");
  }

  // A member without whitespace.
  lemma {:induction false} TightMember(ms: Members, name: string, value: string)
    requires Quoted(ms.key) == name && Text(ms.v) == value
    requires ms.lead == "" && ms.mid == "" && ms.pre == "" && ms.trail == ""
    ensures MembersText(ms) == name + (":" + (value + MembersTail(ms)))
  {
    var tail := MembersTail(ms);
    MembersParts(ms);
    Unpadded(ms.trail, tail);
    Unpadded(ms.pre, value + tail);
    Unpadded(ms.mid, ":" + (value + tail));
    Unpadded(ms.lead, name + (":" + (value + tail)));
  }

  lemma {:induction false} Unpadded(gap: string, text: string)
    requires gap == ""
    ensures gap + text == text
  {
  }
}
