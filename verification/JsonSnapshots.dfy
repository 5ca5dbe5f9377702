// Snapshots of streamed arguments only improve: of two prefixes of one text, the
// longer one's snapshot is above the shorter one's.
module JsonSnapshots {
  import opened Prelude
  import opened JsonNumbers
  import opened JsonText
  import opened JsonLexing
  import opened JsonPlaces
  import opened PartialJson
  import opened JsonReading
  import opened JsonCuts
  import opened JsonStrict
  import opened JsonPrefix
  import opened JsonArrivals
  import opened JsonOrder

  // ---------------------------------------------------------------- which texts

  // No name is repeated within an object, and no string value holds a surrogate pair.
  predicate Steady(j: Json) {
    match j
    case JString(ps) => NoPairs(ps)
    case JArray(es) => SteadyElems(es)
    case JObject(ms) => SteadyMembers(ms, {})
    case _ => true
  }

  predicate SteadyElems(es: Elems) {
    Steady(es.v) && (es.MoreElems? ==> SteadyElems(es.rest))
  }

  predicate SteadyMembers(ms: Members, seen: set<string>)
    decreases ms, 1
  {
    SteadyMember(ms, seen, PiecesValue(ms.key))
  }

  // The same for a list whose first name is `key`.
  predicate SteadyMember(ms: Members, seen: set<string>, key: string)
    decreases ms, 0
  {
    key !in seen && Steady(ms.v) && (ms.MoreMembers? ==> SteadyMembers(ms.rest, seen + {key}))
  }

  // ---------------------------------------------------------------- what the loops keep

  ghost predicate OutcomeBelow(a: Outcome, b: Outcome) {
    !a.Bad? && !b.Bad? && (a.Empty? || (!b.Empty? && Below(a.value, b.value)))
  }

  predicate Found(o: Outcome) {
    o.Done? || o.Cut?
  }

  lemma {:induction false} StringExtends(q: string, pos: nat, out: string)
    requires pos <= |q|
    ensures var o := StringFrom(q, pos, out).outcome; Found(o) ==> out <= o.value.text
    decreases |q| - pos
  {
    if pos < |q| && q[pos] != '"' {
      if q[pos] != '\\' {
        StringExtends(q, pos + 1, out + [q[pos]]);
      } else if pos + 1 < |q| && q[pos + 1] != 'u' {
        StringExtends(q, pos + 2, out + [Unescape(q[pos + 1])]);
      } else if pos + 1 < |q| && UnicodeEscape(q, pos + 2).0.Some? {
        StringExtends(q, UnicodeEscape(q, pos + 2).1, out + [UnicodeEscape(q, pos + 2).0.value]);
      }
    }
  }

  lemma {:induction false} ArrayExtends(q: string, pos: nat, items: seq<Value>)
    requires pos <= |q|
    ensures var o := ArrayFrom(q, pos, items).outcome; Found(o) ==> o.value.Array? && items <= o.value.items
    decreases |q| - pos
  {
    var p := SkipWs(q, pos);
    if p < |q| && q[p] != ']' {
      var v := ValueAt(q, p);
      if v.outcome.Done? {
        var sep := SkipWs(q, v.pos);
        if sep < |q| && q[sep] == ',' {
          ArrayExtends(q, sep + 1, items + [v.outcome.value]);
        }
      }
    }
  }

  // The element being read is the next one of the result.
  lemma {:induction false} ArrayHolds(q: string, pos: nat, items: seq<Value>, v: nat)
    requires pos <= |q| && SkipWs(q, pos) == v < |q| && q[v] != ']' && Found(ValueAt(q, v).outcome)
    ensures var o := ArrayFrom(q, pos, items).outcome;
            Found(o) ==> o.value.Array? && items + [ValueAt(q, v).outcome.value] <= o.value.items
  {
    var r := ValueAt(q, v);
    if r.outcome.Done? {
      var sep := SkipWs(q, r.pos);
      if sep < |q| && q[sep] == ',' {
        ArrayExtends(q, sep + 1, items + [r.outcome.value]);
      }
    }
  }

  // ---------------------------------------------------------------- strings

  lemma {:induction false} StringFound(q: string, pos: nat, ps: seq<Piece>, out: string)
    requires Arrives(q, pos, Rest(ps))
    ensures Found(StringFrom(q, pos, out).outcome) && out <= StringFrom(q, pos, out).outcome.value.text
  {
    assert Asked(0);
    StringExtends(q, pos, out);
    if At(q, pos, Rest(ps)) {
      StringReads(q, pos, ps, out);
    } else {
      StringCut(q, pos, ps, out);
    }
  }

  // With the first piece whole and no pair ahead, the string goes on after it.
  lemma {:induction false} StringGoesOn(q: string, pos: nat, ps: seq<Piece>, out: string)
    requires ps != [] && !PairAhead(ps) && Arrives(q, pos, Rest(ps)) && At(q, pos, PieceText(ps[0]))
    ensures Arrives(q, pos + |PieceText(ps[0])|, Rest(ps[1..]))
    ensures StringFrom(q, pos, out) == StringFrom(q, pos + |PieceText(ps[0])|, out + [FirstChar(ps)])
  {
    RestParts(ps);
    ArrivesAfter(q, pos, PieceText(ps[0]), Rest(ps[1..]));
    FirstGoesOn(q, pos, ps, out);
  }

  lemma {:induction false} FirstGoesOn(q: string, pos: nat, ps: seq<Piece>, out: string)
    requires ps != [] && !PairAhead(ps) && Arrives(q, pos, Rest(ps)) && At(q, pos, PieceText(ps[0]))
    ensures StringFrom(q, pos, out) == StringFrom(q, pos + |PieceText(ps[0])|, out + [FirstChar(ps)])
  {
    assert Asked(0);
    if At(q, pos, Rest(ps)) {
      WholeFirstGoesOn(q, pos, ps, out);
    } else {
      CutFirstGoesOn(q, pos, ps, out);
    }
  }

  lemma {:induction false} CutFirstGoesOn(q: string, pos: nat, ps: seq<Piece>, out: string)
    requires ps != [] && !PairAhead(ps) && CutAt(q, pos, Rest(ps)) && At(q, pos, PieceText(ps[0]))
    ensures StringFrom(q, pos, out) == StringFrom(q, pos + |PieceText(ps[0])|, out + [FirstChar(ps)])
  {
    CutFirst(q, pos, ps);
    WholeNotCut(q, pos, PieceText(ps[0]));
    CutStep(q, pos, ps, out);
  }

  lemma {:induction false} WholeFirstGoesOn(q: string, pos: nat, ps: seq<Piece>, out: string)
    requires ps != [] && !PairAhead(ps) && At(q, pos, Rest(ps))
    ensures StringFrom(q, pos, out) == StringFrom(q, pos + |PieceText(ps[0])|, out + [FirstChar(ps)])
  {
    RestParts(ps);
    var next := StringStep(q, pos, ps, out);
  }

  lemma {:induction false} StringGrows(s: string, q: string, pos: nat, ps: seq<Piece>, out: string)
    requires s <= q && CutAt(s, pos, Rest(ps)) && Arrives(q, pos, Rest(ps)) && NoPairs(ps)
    ensures OutcomeBelow(StringFrom(s, pos, out).outcome, StringFrom(q, pos, out).outcome)
    decreases |ps|
  {
    StringFound(q, pos, ps, out);
    if ps != [] {
      CutFirst(s, pos, ps);
      if CutAt(s, pos, PieceText(ps[0])) {
        PieceCut(s, pos, ps[0], out);
      } else {
        BothGoOn(s, q, pos, ps, out);
        StringGrows(s, q, pos + |PieceText(ps[0])|, ps[1..], out + [FirstChar(ps)]);
      }
    }
  }

  lemma {:induction false} BothGoOn(s: string, q: string, pos: nat, ps: seq<Piece>, out: string)
    requires s <= q && ps != [] && NoPairs(ps) && CutAt(s, pos, Rest(ps)) && Arrives(q, pos, Rest(ps))
    requires FirstWhole(s, pos, ps)
    ensures var next, more := pos + |PieceText(ps[0])|, out + [FirstChar(ps)];
            && CutAt(s, next, Rest(ps[1..])) && Arrives(q, next, Rest(ps[1..])) && NoPairs(ps[1..])
            && StringFrom(s, pos, out) == StringFrom(s, next, more)
            && StringFrom(q, pos, out) == StringFrom(q, next, more)
  {
    AtSame(s, q, pos, PieceText(ps[0]));
    StringGoesOn(s, pos, ps, out);
    StringGoesOn(q, pos, ps, out);
  }

  // ---------------------------------------------------------------- numbers

  // The number a token is read as is the longest number it begins with.
  lemma {:induction false} BestGrows(a: string, b: string)
    requires a <= b && NumRun(Start, b) != Dead
    ensures OutcomeBelow(BestNumber(a), BestNumber(b))
    decreases |b|
  {
    PrefixLives(a, b);
    BestOfPrefix(a);
    if |a| < |b| && !ValidNumber(b) {
      var most, last := b[..|b| - 1], b[|b| - 1];
      assert b == most + [last];
      NumRunSnoc(Start, most, last);
      PrefixLives(most, b);
      BestGrows(a, most);
    } else if a == b {
      BestReflexive(b);
    }
  }

  lemma {:induction false} BestReflexive(b: string)
    requires NumRun(Start, b) != Dead
    ensures OutcomeBelow(BestNumber(b), BestNumber(b))
  {
    BestOfPrefix(b);
  }

  lemma {:induction false} PrefixLives(a: string, b: string)
    requires a <= b && NumRun(Start, b) != Dead
    ensures NumRun(Start, a) != Dead
  {
    assert b == a + b[|a|..];
    NumRunAppend(Start, a, b[|a|..]);
    DeadStaysDead(b[|a|..]);
  }

  // A token read to its end, or cut there.
  predicate ReadAs(token: string, o: Outcome) {
    o == BestNumber(token) || (ValidNumber(token) && o == Done(Number(token)))
  }

  lemma {:induction false} ReadGrows(a: string, b: string, x: Outcome, y: Outcome)
    requires a <= b && NumRun(Start, b) != Dead && ReadAs(a, x) && ReadAs(b, y)
    ensures OutcomeBelow(x, y)
  {
    BestGrows(a, b);
    BestOfPrefix(b);
  }

  lemma {:induction false} NumberArrives(q: string, v: nat, n: NumberSyntax) returns (token: string)
    requires v < |q| && Holds(q, v, JNumber(n))
    ensures token <= NumberToken(n) && v + |token| <= |q| && token == q[v..v + |token|]
    ensures token == q[v..] || token == NumberToken(n)
    ensures NumRun(Start, token) != Dead && ReadAs(token, ValueAt(q, v).outcome)
  {
    NumberStarts(n);
    if CutAt(q, v, NumberToken(n)) {
      NumberCut(q, v, n);
      NumberValueCut(q, v, n);
      token := q[v..];
      assert q[v..v + |token|] == token;
    } else {
      token := NumberToken(n);
      NumberAccepted(n);
      NumberValueReads(q, v, n);
      AtSlice(q, v, token);
    }
  }

  lemma {:induction false} NumberGrows(s: string, q: string, v: nat, n: NumberSyntax)
    requires s <= q && v < |s| && CutAt(s, v, NumberToken(n)) && Holds(q, v, JNumber(n))
    ensures OutcomeBelow(ValueAt(s, v).outcome, ValueAt(q, v).outcome)
  {
    var a := NumberArrives(s, v, n);
    var b := NumberArrives(q, v, n);
    CutIsPrefix(s, v, NumberToken(n));
    assert a == s[v..v + |a|] == q[v..v + |a|];
    assert a <= b;
    ReadGrows(a, b, ValueAt(s, v).outcome, ValueAt(q, v).outcome);
  }

  // ---------------------------------------------------------------- values

  // `j` is cut at `v`, or whole.
  predicate Holds(q: string, v: nat, j: Json) {
    CutAt(q, v, Text(j)) || (At(q, v, Text(j)) && Stops(j, q, v + |Text(j)|))
  }

  lemma {:induction false} HoldsFound(q: string, v: nat, j: Json)
    requires Holds(q, v, j)
    ensures !ValueAt(q, v).outcome.Bad?
  {
    if CutAt(q, v, Text(j)) {
      ValueCut(q, v, j);
    } else {
      ValueReads(q, v, j);
    }
  }

  lemma {:induction false} LiteralGrows(s: string, q: string, v: nat, word: string, value: Value)
    requires s <= q && CutAt(s, v, word) && Arrives(q, v, word)
    ensures OutcomeBelow(LiteralFrom(s, v, word, value).outcome, LiteralFrom(q, v, word, value).outcome)
  {
    assert Asked(0);
    LiteralCut(s, v, word, value);
    if At(q, v, word) {
      LiteralReads(q, v, word, value);
    } else {
      LiteralCut(q, v, word, value);
    }
    BelowReflexive(value);
  }

  lemma {:induction false} LeafGrows(s: string, q: string, v: nat, j: Json)
    requires s <= q && v < |s| && CutAt(s, v, Text(j)) && Holds(q, v, j) && Steady(j)
    requires !j.JArray? && !j.JObject?
    ensures OutcomeBelow(ValueAt(s, v).outcome, ValueAt(q, v).outcome)
  {
    CutCons(s, v, Text(j));
    match j
    case JNull => LiteralGrows(s, q, v, "null", Null);
    case JTrue => LiteralGrows(s, q, v, "true", Bool(true));
    case JFalse => LiteralGrows(s, q, v, "false", Bool(false));
    case JNumber(n) => NumberGrows(s, q, v, n);
    case JString(ps) =>
      QuotedStarts(ps);
      QuotedCut(s, v, ps);
      ArrivesTail(q, v, Quoted(ps));
      StringGrows(s, q, v + 1, ps, "");
    case JEmptyArray(gap) =>
      EmptyArrayStands(s, v, gap);
      EmptyArrayStands(q, v, gap);
    case JEmptyObject(gap) =>
      EmptyObjectStands(s, v, gap);
      EmptyObjectStands(q, v, gap);
  }

  lemma {:induction false} EmptyArrayStands(q: string, v: nat, gap: Ws)
    requires v < |q| && Arrives(q, v, Text(JEmptyArray(gap)))
    ensures Found(ValueAt(q, v).outcome) && ValueAt(q, v).outcome.value == Array([])
  {
    ArrivesOn(q, v, '[', gap + "]");
    CloseArrives(q, v + 1, gap, ']');
  }

  lemma {:induction false} EmptyObjectStands(q: string, v: nat, gap: Ws)
    requires v < |q| && Arrives(q, v, Text(JEmptyObject(gap)))
    ensures Found(ValueAt(q, v).outcome) && ValueAt(q, v).outcome.value == Object(map[])
  {
    ArrivesOn(q, v, '{', gap + "}");
    CloseArrives(q, v + 1, gap, '}');
  }

  lemma {:induction false} CloseArrives(q: string, pos: nat, gap: Ws, close: char)
    requires Arrives(q, pos, gap + [close]) && !JsonSpace(close)
    ensures pos <= |q| && (SkipWs(q, pos) == |q| || q[SkipWs(q, pos)] == close)
  {
    assert Asked(0);
    if At(q, pos, gap + [close]) {
      CloseReads(q, pos, gap, close);
    } else {
      CloseCut(q, pos, gap, close);
    }
  }

  lemma {:induction false} ValueGrows(s: string, q: string, v: nat, j: Json)
    requires s <= q && CutAt(s, v, Text(j)) && Holds(q, v, j) && Steady(j)
    ensures OutcomeBelow(ValueAt(s, v).outcome, ValueAt(q, v).outcome)
    decreases j, 0
  {
    HoldsFound(q, v, j);
    if v < |s| {
      match j
      case JArray(es) => ArrayValueGrows(s, q, v, es);
      case JObject(ms) => ObjectValueGrows(s, q, v, ms);
      case _ => LeafGrows(s, q, v, j);
    }
  }

  lemma {:induction false} ArrayValueGrows(s: string, q: string, v: nat, es: Elems)
    requires s <= q && v < |s| && CutAt(s, v, Text(JArray(es))) && Holds(q, v, JArray(es)) && SteadyElems(es)
    ensures OutcomeBelow(ValueAt(s, v).outcome, ValueAt(q, v).outcome)
    decreases es, 3
  {
    CutTail(s, v, '[', ElemsText(es));
    ArrivesOn(q, v, '[', ElemsText(es));
    ElemsGrow(s, q, v + 1, es, []);
    ValueOpens(s, v);
    ValueOpens(q, v);
    ArrayOutcomes(ArrayFrom(s, v + 1, []).outcome, ArrayFrom(q, v + 1, []).outcome);
  }

  // The first character of a string, an array or an object decides how it is read.
  lemma {:induction false} ValueOpens(s: string, v: nat)
    requires v < |s|
    ensures s[v] == '"' ==> ValueAt(s, v) == StringFrom(s, v + 1, "")
    ensures s[v] == '[' ==> ValueAt(s, v) == ArrayFrom(s, v + 1, [])
    ensures s[v] == '{' ==> ValueAt(s, v) == ObjectFrom(s, v + 1, map[])
  {
    assert !JsonSpace(s[v]) ==> SkipWs(s, v) == v;
  }

  lemma {:induction false} ArrayOutcomes(a: Outcome, b: Outcome)
    requires ArrayGrows(a, b)
    ensures OutcomeBelow(a, b)
  {
  }

  lemma {:induction false} ObjectOutcomes(a: Outcome, b: Outcome)
    requires ObjectGrows(a, b)
    ensures OutcomeBelow(a, b)
  {
  }

  lemma {:induction false} ObjectValueGrows(s: string, q: string, v: nat, ms: Members)
    requires s <= q && v < |s| && CutAt(s, v, Text(JObject(ms))) && Holds(q, v, JObject(ms)) && SteadyMembers(ms, {})
    ensures OutcomeBelow(ValueAt(s, v).outcome, ValueAt(q, v).outcome)
    decreases ms, 6
  {
    CutTail(s, v, '{', MembersText(ms));
    ArrivesOn(q, v, '{', MembersText(ms));
    var none: map<string, Value> := map[];
    assert none.Keys == {};
    MembersGrow(s, q, v + 1, ms, none);
    ValueOpens(s, v);
    ValueOpens(q, v);
    ObjectOutcomes(ObjectFrom(s, v + 1, none).outcome, ObjectFrom(q, v + 1, none).outcome);
  }

  // The same behind whitespace.
  lemma {:induction false} PlacedValueGrows(s: string, q: string, pos: nat, j: Json, v: nat)
    requires s <= q && CutInText(s, pos, Text(j), v) && TextStands(q, pos, Text(j), v) && Steady(j)
    ensures OutcomeBelow(ValueAt(s, v).outcome, ValueAt(q, v).outcome)
    decreases j, 1
  {
    ValueGrows(s, q, v, j);
  }

  // A text that stood whole stands whole when more has arrived.
  lemma {:induction false} WholeStays(s: string, q: string, pos: nat, text: string, v: nat, end: nat)
    requires s <= q && WholeText(s, pos, text, v, end) && TextStands(q, pos, text, v)
    ensures WholeText(q, pos, text, v, end)
  {
    WholeSame(s, q, pos, text, v, end);
    WholeNotCut(q, v, text);
  }

  // ---------------------------------------------------------------- arrays

  lemma {:induction false} ElemsFound(q: string, pos: nat, es: Elems, items: seq<Value>)
    requires Arrives(q, pos, ElemsText(es))
    ensures var o := ArrayFrom(q, pos, items).outcome; Found(o) && o.value.Array? && items <= o.value.items
  {
    assert Asked(0);
    if At(q, pos, ElemsText(es)) {
      ElemsRead(q, pos, es, items);
    } else {
      ElemsAreCut(q, pos, es, items);
    }
    ArrayExtends(q, pos, items);
  }

  ghost predicate ArrayBelow(items: seq<Value>, o: Outcome) {
    Found(o) && o.value.Array? && ItemsBelow(items, o.value.items)
  }

  ghost predicate ArrayGrows(a: Outcome, b: Outcome) {
    Found(a) && a.value.Array? && ArrayBelow(a.value.items, b)
  }

  lemma {:induction false} ElemsGrow(s: string, q: string, pos: nat, es: Elems, items: seq<Value>)
    requires s <= q && CutAt(s, pos, ElemsText(es)) && Arrives(q, pos, ElemsText(es)) && SteadyElems(es)
    ensures ArrayGrows(ArrayFrom(s, pos, items).outcome, ArrayFrom(q, pos, items).outcome)
    decreases es, 2
  {
    var stage := ElemsCut(s, pos, es);
    match stage
    case InLead =>
      ElemEmpty(s, pos, items);
      ElemsFound(q, pos, es, items);
      PrefixBelow(items, ArrayFrom(q, pos, items).outcome.value.items);
    case InText(v) =>
      ElemGrows(s, q, pos, es, items, v, ArrayFrom(s, pos, items).outcome, ArrayFrom(q, pos, items).outcome);
    case InTrail(v, end) =>
      ElemIsLast(s, pos, es, items, v, end);
      ElemStays(s, q, pos, es, items, v, end, ArrayFrom(q, pos, items).outcome);
    case InTail(v, end, sep) =>
      ElemsGrowOn(s, q, pos, es, items, v, end, sep);
  }

  lemma {:induction false} ElemsGrowOn(s: string, q: string, pos: nat, es: Elems, items: seq<Value>, v: nat, end: nat,
                                       sep: nat)
    requires s <= q && CutInTail(s, pos, Text(es.v), ElemsTail(es), v, end, sep)
    requires Arrives(q, pos, ElemsText(es)) && SteadyElems(es)
    ensures ArrayGrows(ArrayFrom(s, pos, items).outcome, ArrayFrom(q, pos, items).outcome)
    decreases es, 1
  {
    ElemPassesBoth(s, q, pos, es, items, v, end, sep);
    ElemsGrow(s, q, sep + 1, es.rest, items + [Meaning(es.v)]);
  }

  lemma {:induction false} ElemPassesBoth(s: string, q: string, pos: nat, es: Elems, items: seq<Value>, v: nat,
                                          end: nat, sep: nat)
    requires s <= q && CutInTail(s, pos, Text(es.v), ElemsTail(es), v, end, sep) && Arrives(q, pos, ElemsText(es))
    ensures es.MoreElems? && CutAt(s, sep + 1, ElemsText(es.rest)) && Arrives(q, sep + 1, ElemsText(es.rest))
    ensures var more := items + [Meaning(es.v)];
            && ArrayFrom(s, pos, items) == ArrayFrom(s, sep + 1, more)
            && ArrayFrom(q, pos, items) == ArrayFrom(q, sep + 1, more)
  {
    ElemCutPasses(s, pos, es, items, v, end, sep);
    ElemFollows(s, q, pos, es, items, v, end, sep);
  }

  // A longer text passes the same element at the same place.
  lemma {:induction false} ElemFollows(s: string, q: string, pos: nat, es: Elems, items: seq<Value>, v: nat, end: nat,
                                       sep: nat)
    requires s <= q && WholeText(s, pos, Text(es.v), v, end) && SkipWs(s, end) == sep < |s|
    requires es.MoreElems? && Arrives(q, pos, ElemsText(es))
    ensures Arrives(q, sep + 1, ElemsText(es.rest))
    ensures ArrayFrom(q, pos, items) == ArrayFrom(q, sep + 1, items + [Meaning(es.v)])
  {
    WholeSame(s, q, pos, Text(es.v), v, end);
    SkipSame(s, q, end);
    ElemsTailArrives(q, pos, es, v, end, sep);
    ElemPasses(q, pos, es, items, v, end, sep);
  }

  lemma {:induction false} ElemValuesGrow(s: string, q: string, pos: nat, es: Elems, v: nat)
    requires s <= q && CutInText(s, pos, Text(es.v), v) && Arrives(q, pos, ElemsText(es)) && Steady(es.v)
    ensures OutcomeBelow(ValueAt(s, v).outcome, ValueAt(q, v).outcome)
    decreases es, 0
  {
    SkipSame(s, q, pos);
    ElemArrives(q, pos, es, v);
    PlacedValueGrows(s, q, pos, es.v, v);
  }

  // The value is cut.
  lemma {:induction false} ElemStops(s: string, pos: nat, es: Elems, items: seq<Value>, v: nat)
    requires CutInText(s, pos, Text(es.v), v)
    ensures var x := ValueAt(s, v).outcome;
            !x.Bad? && ArrayFrom(s, pos, items) ==
            Parsed(Cut(Array(if x.Empty? then items else items + [x.value])), |s|)
  {
    TextStarts(es.v);
    ValueCut(s, v, es.v);
    ElemTruncated(s, pos, items, v, ValueAt(s, v));
  }

  // The result has the elements read before, then what has been read of the next one.
  ghost predicate ElemHeld(items: seq<Value>, y: Outcome, b: Outcome) {
    && Found(b) && b.value.Array? && items <= b.value.items
    && (Found(y) ==> items + [y.value] <= b.value.items)
  }

  lemma {:induction false} ElemHolds(q: string, pos: nat, es: Elems, items: seq<Value>, v: nat, y: Outcome, b: Outcome)
    requires Arrives(q, pos, ElemsText(es)) && pos <= |q| && SkipWs(q, pos) == v < |q|
    requires y == ValueAt(q, v).outcome && b == ArrayFrom(q, pos, items).outcome
    ensures ElemHeld(items, y, b)
  {
    ElemsFound(q, pos, es, items);
    assert q[v] != ']' by {
      ElemArrives(q, pos, es, v);
    }
    if Found(y) {
      ArrayHolds(q, pos, items, v);
    }
  }

  lemma {:induction false} GrownElem(items: seq<Value>, x: Outcome, y: Outcome, a: Outcome, b: Outcome)
    requires OutcomeBelow(x, y) && ElemHeld(items, y, b)
    requires a == Cut(Array(if x.Empty? then items else items + [x.value]))
    ensures ArrayGrows(a, b)
  {
    if x.Empty? {
      PrefixBelow(items, b.value.items);
    } else {
      var held := items + [y.value];
      assert b.value.items[|items|] == held[|items|] == y.value;
      LastBelow(items, x.value, b.value.items);
    }
  }

  // The last element is the one still growing.
  lemma {:induction false} ElemGrows(s: string, q: string, pos: nat, es: Elems, items: seq<Value>, v: nat, a: Outcome,
                                     b: Outcome)
    requires s <= q && CutInText(s, pos, Text(es.v), v) && Arrives(q, pos, ElemsText(es)) && Steady(es.v)
    requires a == ArrayFrom(s, pos, items).outcome && b == ArrayFrom(q, pos, items).outcome
    ensures ArrayGrows(a, b)
    decreases es, 1
  {
    var x, y := ValueAt(s, v).outcome, ValueAt(q, v).outcome;
    ElemValuesGrow(s, q, pos, es, v);
    ElemStops(s, pos, es, items, v);
    SkipSame(s, q, pos);
    ElemHolds(q, pos, es, items, v, y, b);
    GrownElem(items, x, y, a, b);
  }

  // The last element is whole.
  lemma {:induction false} ElemStays(s: string, q: string, pos: nat, es: Elems, items: seq<Value>, v: nat, end: nat,
                                     b: Outcome)
    requires s <= q && WholeText(s, pos, Text(es.v), v, end) && Arrives(q, pos, ElemsText(es))
    requires b == ArrayFrom(q, pos, items).outcome
    ensures ArrayBelow(items + [Meaning(es.v)], b)
  {
    WholeElemReads(s, q, pos, es, v, end);
    ElemHolds(q, pos, es, items, v, Done(Meaning(es.v)), b);
    PrefixBelow(items + [Meaning(es.v)], b.value.items);
  }

  lemma {:induction false} WholeElemReads(s: string, q: string, pos: nat, es: Elems, v: nat, end: nat)
    requires s <= q && WholeText(s, pos, Text(es.v), v, end) && Arrives(q, pos, ElemsText(es))
    ensures pos <= |q| && SkipWs(q, pos) == v < |q| && ValueAt(q, v).outcome == Done(Meaning(es.v))
  {
    SkipSame(s, q, pos);
    ElemArrives(q, pos, es, v);
    WholeStays(s, q, pos, Text(es.v), v, end);
    ValueReads(q, v, es.v);
  }

  // ---------------------------------------------------------------- objects

  ghost predicate ObjectKeeps(members: map<string, Value>, o: Outcome) {
    Found(o) && o.value.Object? && forall k {:trigger Asked(k)} :: Asked(k) ==> Kept(members, o.value.members)
  }

  ghost predicate ObjectBelow(members: map<string, Value>, o: Outcome) {
    Found(o) && o.value.Object? && MembersBelow(members, o.value.members)
  }

  ghost predicate ObjectGrows(a: Outcome, b: Outcome) {
    Found(a) && a.value.Object? && ObjectBelow(a.value.members, b)
  }

  lemma {:induction false} KeepsBelow(members: map<string, Value>, o: Outcome)
    requires ObjectKeeps(members, o)
    ensures ObjectBelow(members, o)
  {
    assert Asked(0);
    KeptBelow(members, o.value.members);
  }

  lemma {:induction false} KeepsLess(members: map<string, Value>, key: string, value: Value, o: Outcome)
    requires key !in members && ObjectKeeps(members[key := value], o)
    ensures ObjectKeeps(members, o)
  {
    assert forall k :: k in members ==> k in members[key := value] && members[key := value][k] == members[k];
  }

  // The name is cut, or the colon is still to come.
  lemma {:induction false} NameAbsent(s: string, pos: nat, members: map<string, Value>)
    requires pos <= |s| && SkipWs(s, pos) == |s|
    ensures ObjectFrom(s, pos, members) == Parsed(Cut(Object(members)), |s|)
  {
  }

  lemma {:induction false} NameStops(s: string, pos: nat, ms: Members, members: map<string, Value>, stage: Stage)
    requires Located(s, pos, Quoted(ms.key), ":" + MemberValueText(ms), stage) && !stage.InTail?
    ensures ObjectFrom(s, pos, members) == Parsed(Cut(Object(members)), |s|)
  {
    match stage
    case InLead => NameAbsent(s, pos, members);
    case InText(quote) => CutNameStops(s, pos, ms, members, quote);
    case InTrail(quote, close) => NamePasses(s, pos, ms, members, quote, close, |s|);
  }

  lemma {:induction false} CutNameStops(s: string, pos: nat, ms: Members, members: map<string, Value>, quote: nat)
    requires CutInText(s, pos, Quoted(ms.key), quote)
    ensures ObjectFrom(s, pos, members) == Parsed(Cut(Object(members)), |s|)
  {
    QuotedCut(s, quote, ms.key);
    StringCut(s, quote + 1, ms.key, "");
    NameTruncated(s, pos, members, quote);
  }

  // Members already read stay as they are, whatever has arrived of the others.
  lemma {:induction false} MembersKeep(q: string, pos: nat, ms: Members, members: map<string, Value>)
    requires Arrives(q, pos, MembersText(ms)) && SteadyMembers(ms, members.Keys)
    ensures ObjectKeeps(members, ObjectFrom(q, pos, members).outcome)
    decreases ms, 5
  {
    assert Asked(0);
    if At(q, pos, MembersText(ms)) {
      MembersRead(q, pos, ms, members);
      MeaningKeeps(ms, members);
    } else {
      CutMembersKeep(q, pos, ms, members);
    }
  }

  lemma {:induction false} CutMembersKeep(q: string, pos: nat, ms: Members, members: map<string, Value>)
    requires CutAt(q, pos, MembersText(ms)) && SteadyMembers(ms, members.Keys)
    ensures ObjectKeeps(members, ObjectFrom(q, pos, members).outcome)
    decreases ms, 4, 1
  {
    var stage := NameCut(q, pos, ms);
    if stage.InTail? {
      NamePasses(q, pos, ms, members, stage.v, stage.end, stage.sep);
      NameTailCut(q, pos, ms, stage.v, stage.end, stage.sep);
      var key := PiecesValue(ms.key);
      MemberKeeps(q, stage.sep, ms, members, key, MemberFrom(q, stage.sep, members, key).outcome);
    } else {
      NameStops(q, pos, ms, members, stage);
    }
  }

  lemma {:induction false} MeaningKeeps(ms: Members, members: map<string, Value>)
    requires SteadyMembers(ms, members.Keys)
    ensures Kept(members, MembersMeaning(ms, members))
    decreases ms
  {
    var so := members[PiecesValue(ms.key) := Meaning(ms.v)];
    if ms.MoreMembers? {
      assert so.Keys == members.Keys + {PiecesValue(ms.key)};
      MeaningKeeps(ms.rest, so);
    }
  }

  // What the rest of a member comes to, behind a name.
  ghost predicate MemberYields(q: string, colon: nat, members: map<string, Value>, key: string, o: Outcome) {
    colon <= |q| && forall k {:trigger Asked(k)} :: Asked(k) ==> o == MemberFrom(q, colon, members, key).outcome
  }

  // What a list of members comes to.
  ghost predicate MembersYield(q: string, pos: nat, members: map<string, Value>, o: Outcome) {
    pos <= |q| && forall k {:trigger Asked(k)} :: Asked(k) ==> o == ObjectFrom(q, pos, members).outcome
  }

  // A value stands whole at `v`.
  ghost predicate ValueStands(q: string, pos: nat, j: Json, v: nat, end: nat) {
    forall k {:trigger Asked(k)} :: Asked(k) ==> WholeText(q, pos, Text(j), v, end)
  }

  lemma {:induction false} EmptyYields(q: string, colon: nat, members: map<string, Value>, key: string, o: Outcome)
    requires MemberYields(q, colon, members, key, o) && colon < |q| && q[colon] == ':' && CutInLead(q, colon + 1)
    ensures o == Cut(Object(members))
  {
    assert Asked(0);
    MemberEmpty(q, colon, members, key);
  }

  lemma {:induction false} LastYields(q: string, colon: nat, ms: Members, members: map<string, Value>, key: string,
                                      v: nat, end: nat, o: Outcome)
    requires MemberYields(q, colon, members, key, o) && colon < |q| && q[colon] == ':'
    requires WholeText(q, colon + 1, Text(ms.v), v, end) && SkipWs(q, end) == |q|
    ensures o == Cut(Object(members[key := Meaning(ms.v)]))
  {
    assert Asked(0);
    MemberIsLast(q, colon, ms, members, key, v, end);
  }

  lemma {:induction false} PassedYields(q: string, colon: nat, ms: Members, members: map<string, Value>, key: string,
                                        v: nat, end: nat, sep: nat, o: Outcome)
    requires MemberYields(q, colon, members, key, o) && colon < |q| && q[colon] == ':'
    requires SkipWs(q, colon + 1) == v && At(q, v, Text(ms.v)) && end == v + |Text(ms.v)|
    requires SkipWs(q, end) == sep < |q| && q[sep] == (if ms.LastMember? then '}' else ',')
    ensures var so := members[key := Meaning(ms.v)];
            o == if ms.LastMember? then Done(Object(so)) else ObjectFrom(q, sep + 1, so).outcome
  {
    assert Asked(0);
    MemberPasses(q, colon, ms, members, key, v, end, sep);
  }

  lemma {:induction false} StoppedYields(q: string, colon: nat, ms: Members, members: map<string, Value>, key: string,
                                         v: nat, o: Outcome)
    requires MemberYields(q, colon, members, key, o) && colon < |q| && q[colon] == ':'
    requires CutInText(q, colon + 1, Text(ms.v), v)
    ensures var x := ValueAt(q, v).outcome;
            !x.Bad? && o == Cut(Object(if x.Empty? then members else members[key := x.value]))
  {
    assert Asked(0);
    MemberStops(q, colon, ms, members, key, v);
  }

  lemma {:induction false} MemberKeeps(q: string, colon: nat, ms: Members, members: map<string, Value>, key: string,
                                       b: Outcome)
    requires colon < |q| && q[colon] == ':' && Arrives(q, colon + 1, MemberValueText(ms)) &&
             SteadyMember(ms, members.Keys, key)
    requires MemberYields(q, colon, members, key, b)
    ensures ObjectKeeps(members, b)
    decreases ms, 4, 0
  {
    if CutInLead(q, colon + 1) {
      EmptyYields(q, colon, members, key, b);
    } else {
      var v := SkipWs(q, colon + 1);
      MemberHolds(q, colon, ms, members, key, v, ValueAt(q, v).outcome, b);
    }
  }

  // A whole member is kept too.
  lemma {:induction false} WholeMemberKeeps(q: string, colon: nat, ms: Members, members: map<string, Value>,
                                            key: string, v: nat, end: nat, b: Outcome)
    requires colon < |q| && q[colon] == ':' && Arrives(q, colon + 1, MemberValueText(ms)) &&
             SteadyMember(ms, members.Keys, key)
    requires WholeText(q, colon + 1, Text(ms.v), v, end)
    requires MemberYields(q, colon, members, key, b)
    ensures ObjectKeeps(members[key := Meaning(ms.v)], b)
    decreases ms, 1
  {
    if SkipWs(q, end) == |q| {
      LastYields(q, colon, ms, members, key, v, end, b);
      LastKeeps(members[key := Meaning(ms.v)], b);
    } else if ms.MoreMembers? {
      FollowedMemberKeeps(q, colon, ms, members, key, v, end, SkipWs(q, end), b);
    } else {
      ClosedMemberKeeps(q, colon, ms, members, key, v, end, SkipWs(q, end), b);
    }
  }

  lemma {:induction false} FollowedMemberKeeps(q: string, colon: nat, ms: Members, members: map<string, Value>,
                                               key: string, v: nat, end: nat, sep: nat, b: Outcome)
    requires ms.MoreMembers? && SteadyMember(ms, members.Keys, key)
    requires colon < |q| && q[colon] == ':' && Arrives(q, colon + 1, MemberValueText(ms))
    requires ValueStands(q, colon + 1, ms.v, v, end) && end <= |q| && SkipWs(q, end) == sep < |q|
    requires MemberYields(q, colon, members, key, b)
    ensures ObjectKeeps(members[key := Meaning(ms.v)], b)
    decreases ms, 0, 2
  {
    FollowedYields(q, colon, ms, members, key, v, end, sep, b);
    RestKeeps(q, sep + 1, ms, members, key, b);
  }

  lemma {:induction false} ClosedMemberKeeps(q: string, colon: nat, ms: Members, members: map<string, Value>,
                                             key: string, v: nat, end: nat, sep: nat, b: Outcome)
    requires ms.LastMember?
    requires colon < |q| && q[colon] == ':' && Arrives(q, colon + 1, MemberValueText(ms))
    requires ValueStands(q, colon + 1, ms.v, v, end) && end <= |q| && SkipWs(q, end) == sep < |q|
    requires MemberYields(q, colon, members, key, b)
    ensures ObjectKeeps(members[key := Meaning(ms.v)], b)
  {
    FollowedYields(q, colon, ms, members, key, v, end, sep, b);
    LastKeeps(members[key := Meaning(ms.v)], b);
  }

  lemma {:induction false} FollowedYields(q: string, colon: nat, ms: Members, members: map<string, Value>, key: string,
                                          v: nat, end: nat, sep: nat, b: Outcome)
    requires colon < |q| && q[colon] == ':' && Arrives(q, colon + 1, MemberValueText(ms))
    requires ValueStands(q, colon + 1, ms.v, v, end) && end <= |q| && SkipWs(q, end) == sep < |q|
    requires MemberYields(q, colon, members, key, b)
    ensures ms.LastMember? ==> b == Done(Object(members[key := Meaning(ms.v)]))
    ensures ms.MoreMembers? ==>
            Arrives(q, sep + 1, MembersText(ms.rest)) && MembersYield(q, sep + 1, members[key := Meaning(ms.v)], b)
  {
    assert Asked(0);
    MembersTailArrives(q, colon + 1, ms, v, end, sep);
    PassedYields(q, colon, ms, members, key, v, end, sep, b);
  }

  lemma {:induction false} LastKeeps(members: map<string, Value>, b: Outcome)
    requires b == Done(Object(members)) || b == Cut(Object(members))
    ensures ObjectKeeps(members, b)
  {
  }

  lemma {:induction false} RestKeeps(q: string, pos: nat, ms: Members, members: map<string, Value>, key: string,
                                     b: Outcome)
    requires ms.MoreMembers? && Arrives(q, pos, MembersText(ms.rest)) && SteadyMember(ms, members.Keys, key)
    requires MembersYield(q, pos, members[key := Meaning(ms.v)], b)
    ensures ObjectKeeps(members[key := Meaning(ms.v)], b)
    decreases ms, 0, 0
  {
    var so := members[key := Meaning(ms.v)];
    assert so.Keys == members.Keys + {key};
    MembersKeep(q, pos, ms.rest, so);
    assert Asked(0);
  }

  lemma {:induction false} MembersGrow(s: string, q: string, pos: nat, ms: Members, members: map<string, Value>)
    requires s <= q && CutAt(s, pos, MembersText(ms)) && Arrives(q, pos, MembersText(ms)) &&
             SteadyMembers(ms, members.Keys)
    ensures ObjectGrows(ObjectFrom(s, pos, members).outcome, ObjectFrom(q, pos, members).outcome)
    decreases ms, 4
  {
    var stage := NameCut(s, pos, ms);
    if stage.InTail? {
      NameGrowsOn(s, q, pos, ms, members, stage.v, stage.end, stage.sep);
    } else {
      NameStops(s, pos, ms, members, stage);
      MembersKeep(q, pos, ms, members);
      KeepsBelow(members, ObjectFrom(q, pos, members).outcome);
    }
  }

  lemma {:induction false} NameGrowsOn(s: string, q: string, pos: nat, ms: Members, members: map<string, Value>,
                                       quote: nat, close: nat, colon: nat)
    requires s <= q && CutInTail(s, pos, Quoted(ms.key), ":" + MemberValueText(ms), quote, close, colon)
    requires Arrives(q, pos, MembersText(ms)) && SteadyMembers(ms, members.Keys)
    ensures ObjectGrows(ObjectFrom(s, pos, members).outcome, ObjectFrom(q, pos, members).outcome)
    decreases ms, 3
  {
    NamePasses(s, pos, ms, members, quote, close, colon);
    WholeSame(s, q, pos, Quoted(ms.key), quote, close);
    SkipSame(s, q, close);
    NameArrives(q, pos, ms, quote, close, colon);
    NamePasses(q, pos, ms, members, quote, close, colon);
    NameTailCut(s, pos, ms, quote, close, colon);
    var key := PiecesValue(ms.key);
    MemberGrows(s, q, colon, ms, members, key, MemberFrom(s, colon, members, key).outcome,
                MemberFrom(q, colon, members, key).outcome);
  }

  lemma {:induction false} MemberGrows(s: string, q: string, colon: nat, ms: Members, members: map<string, Value>,
                                       key: string, a: Outcome, b: Outcome)
    requires s <= q && colon < |s| && s[colon] == ':' && CutAt(s, colon + 1, MemberValueText(ms))
    requires Arrives(q, colon + 1, MemberValueText(ms)) && SteadyMember(ms, members.Keys, key)
    requires MemberYields(s, colon, members, key, a)
    requires MemberYields(q, colon, members, key, b)
    ensures ObjectGrows(a, b)
    decreases ms, 2
  {
    var stage := MemberCut(s, colon + 1, ms);
    match stage
    case InLead =>
      EmptyYields(s, colon, members, key, a);
      MemberKeeps(q, colon, ms, members, key, b);
      KeepsBelow(members, b);
    case InText(v) => MemberValueGrows(s, q, colon, ms, members, key, v, a, b);
    case InTrail(v, end) =>
      LastYields(s, colon, ms, members, key, v, end, a);
      WholeMemberSame(s, q, colon + 1, ms, v, end);
      WholeMemberBelow(q, colon, ms, members, key, v, end, b);
    case InTail(v, end, sep) => MembersGrowOn(s, q, colon, ms, members, key, v, end, sep, a, b);
  }

  lemma {:induction false} WholeMemberSame(s: string, q: string, pos: nat, ms: Members, v: nat, end: nat)
    requires s <= q && WholeText(s, pos, Text(ms.v), v, end) && Arrives(q, pos, MemberValueText(ms))
    ensures WholeText(q, pos, Text(ms.v), v, end)
  {
    SkipSame(s, q, pos);
    MemberArrives(q, pos, ms, v);
    WholeStays(s, q, pos, Text(ms.v), v, end);
  }

  lemma {:induction false} WholeMemberBelow(q: string, colon: nat, ms: Members, members: map<string, Value>,
                                            key: string, v: nat, end: nat, b: Outcome)
    requires colon < |q| && q[colon] == ':' && Arrives(q, colon + 1, MemberValueText(ms)) &&
             SteadyMember(ms, members.Keys, key)
    requires WholeText(q, colon + 1, Text(ms.v), v, end)
    requires MemberYields(q, colon, members, key, b)
    ensures ObjectBelow(members[key := Meaning(ms.v)], b)
    decreases ms, 1, 1
  {
    WholeMemberKeeps(q, colon, ms, members, key, v, end, b);
    KeepsBelow(members[key := Meaning(ms.v)], b);
  }

  lemma {:induction false} MemberValuesGrow(s: string, q: string, pos: nat, ms: Members, v: nat)
    requires s <= q && CutInText(s, pos, Text(ms.v), v) && Arrives(q, pos, MemberValueText(ms)) && Steady(ms.v)
    ensures OutcomeBelow(ValueAt(s, v).outcome, ValueAt(q, v).outcome)
    decreases ms, 0
  {
    SkipSame(s, q, pos);
    MemberArrives(q, pos, ms, v);
    PlacedValueGrows(s, q, pos, ms.v, v);
  }

  // The member being read is the one that grows.
  lemma {:induction false} MemberValueGrows(s: string, q: string, colon: nat, ms: Members, members: map<string, Value>,
                                            key: string, v: nat, a: Outcome, b: Outcome)
    requires s <= q && colon < |s| && s[colon] == ':' && CutInText(s, colon + 1, Text(ms.v), v)
    requires Arrives(q, colon + 1, MemberValueText(ms)) && SteadyMember(ms, members.Keys, key)
    requires MemberYields(s, colon, members, key, a)
    requires MemberYields(q, colon, members, key, b)
    ensures ObjectGrows(a, b)
    decreases ms, 1
  {
    MemberValuesGrow(s, q, colon + 1, ms, v);
    StoppedYields(s, colon, ms, members, key, v, a);
    SkipSame(s, q, colon + 1);
    MemberHolds(q, colon, ms, members, key, v, ValueAt(q, v).outcome, b);
    GrownMember(members, key, ValueAt(s, v).outcome, ValueAt(q, v).outcome, a, b);
  }

  // The result has the members read before, and under `key` what has been read of it.
  ghost predicate MemberHeld(members: map<string, Value>, key: string, y: Outcome, b: Outcome) {
    ObjectKeeps(members, b) && (Found(y) ==> key in b.value.members && b.value.members[key] == y.value)
  }

  lemma {:induction false} GrownMember(members: map<string, Value>, key: string, x: Outcome, y: Outcome, a: Outcome,
                                       b: Outcome)
    requires key !in members && OutcomeBelow(x, y) && MemberHeld(members, key, y, b)
    requires a == Cut(Object(if x.Empty? then members else members[key := x.value]))
    ensures ObjectGrows(a, b)
  {
    assert Asked(0);
    if x.Empty? {
      KeepsBelow(members, b);
    } else {
      MemberBelow(members, key, x.value, b.value.members);
    }
  }

  // The value is cut.
  lemma {:induction false} MemberStops(s: string, colon: nat, ms: Members, members: map<string, Value>, key: string,
                                       v: nat)
    requires colon < |s| && s[colon] == ':' && CutInText(s, colon + 1, Text(ms.v), v)
    ensures var x := ValueAt(s, v).outcome;
            !x.Bad? && MemberFrom(s, colon, members, key) ==
            Parsed(Cut(Object(if x.Empty? then members else members[key := x.value])), |s|)
  {
    ValueCutAfterSpace(s, colon + 1, v, ms.v);
    ValueAfterSpace(s, colon + 1, v);
    MemberTruncated(s, colon, members, key, ValueAt(s, v));
  }

  lemma {:induction false} MemberHolds(q: string, colon: nat, ms: Members, members: map<string, Value>, key: string,
                                       v: nat, y: Outcome, b: Outcome)
    requires colon < |q| && q[colon] == ':' && SkipWs(q, colon + 1) == v < |q|
    requires Arrives(q, colon + 1, MemberValueText(ms)) && SteadyMember(ms, members.Keys, key)
    requires y == ValueAt(q, v).outcome && MemberYields(q, colon, members, key, b)
    ensures MemberHeld(members, key, y, b)
    decreases ms, 3
  {
    if CutAt(q, v, Text(ms.v)) {
      CutMemberHolds(q, colon, ms, members, key, v, y, b);
    } else {
      WholeMemberStands(q, colon + 1, ms, v);
      WholeMemberHolds(q, colon, ms, members, key, v, v + |Text(ms.v)|, y, b);
    }
  }

  lemma {:induction false} WholeMemberStands(q: string, pos: nat, ms: Members, v: nat)
    requires Arrives(q, pos, MemberValueText(ms)) && pos <= |q| && SkipWs(q, pos) == v < |q| && !CutAt(q, v, Text(ms.v))
    ensures WholeText(q, pos, Text(ms.v), v, v + |Text(ms.v)|)
  {
    MemberArrives(q, pos, ms, v);
  }

  lemma {:induction false} CutMemberHolds(q: string, colon: nat, ms: Members, members: map<string, Value>, key: string,
                                          v: nat, y: Outcome, b: Outcome)
    requires colon < |q| && q[colon] == ':' && CutInText(q, colon + 1, Text(ms.v), v) && key !in members
    requires y == ValueAt(q, v).outcome && MemberYields(q, colon, members, key, b)
    ensures MemberHeld(members, key, y, b)
  {
    StoppedYields(q, colon, ms, members, key, v, b);
  }

  lemma {:induction false} WholeMemberHolds(q: string, colon: nat, ms: Members, members: map<string, Value>,
                                            key: string, v: nat, end: nat, y: Outcome, b: Outcome)
    requires colon < |q| && q[colon] == ':' && Arrives(q, colon + 1, MemberValueText(ms)) &&
             SteadyMember(ms, members.Keys, key)
    requires WholeText(q, colon + 1, Text(ms.v), v, end)
    requires y == ValueAt(q, v).outcome && MemberYields(q, colon, members, key, b)
    ensures MemberHeld(members, key, y, b)
    decreases ms, 2
  {
    ValueReads(q, v, ms.v);
    WholeMemberKeeps(q, colon, ms, members, key, v, end, b);
    HeldWhole(members, key, y, b);
  }

  lemma {:induction false} HeldWhole(members: map<string, Value>, key: string, y: Outcome, b: Outcome)
    requires y.Done? && key !in members && ObjectKeeps(members[key := y.value], b)
    ensures MemberHeld(members, key, y, b)
  {
    assert Asked(0);
    KeepsLess(members, key, y.value, b);
    assert key in members[key := y.value];
  }

  // A longer text passes the same member at the same place.
  lemma {:induction false} MemberFollows(s: string, q: string, colon: nat, ms: Members, members: map<string, Value>,
                                         key: string, v: nat, end: nat, sep: nat, b: Outcome)
    requires s <= q && colon < |s| && s[colon] == ':' && WholeText(s, colon + 1, Text(ms.v), v, end) &&
             SkipWs(s, end) == sep < |s| && MemberYields(q, colon, members, key, b)
    requires ms.MoreMembers? && Arrives(q, colon + 1, MemberValueText(ms))
    ensures Arrives(q, sep + 1, MembersText(ms.rest))
    ensures b == ObjectFrom(q, sep + 1, members[key := Meaning(ms.v)]).outcome
  {
    WholeSame(s, q, colon + 1, Text(ms.v), v, end);
    SkipSame(s, q, end);
    MembersTailArrives(q, colon + 1, ms, v, end, sep);
    PassedYields(q, colon, ms, members, key, v, end, sep, b);
  }

  lemma {:induction false} CutPassedYields(s: string, colon: nat, ms: Members, members: map<string, Value>, key: string,
                                           v: nat, end: nat, sep: nat, a: Outcome)
    requires MemberYields(s, colon, members, key, a) && colon < |s| && s[colon] == ':'
    requires CutInTail(s, colon + 1, Text(ms.v), MembersTail(ms), v, end, sep)
    ensures ms.MoreMembers? && CutAt(s, sep + 1, MembersText(ms.rest))
    ensures a == ObjectFrom(s, sep + 1, members[key := Meaning(ms.v)]).outcome
  {
    assert Asked(0);
    MemberCutPasses(s, colon, ms, members, key, v, end, sep);
  }

  lemma {:induction false} MembersGrowOn(s: string, q: string, colon: nat, ms: Members, members: map<string, Value>,
                                         key: string, v: nat, end: nat, sep: nat, a: Outcome, b: Outcome)
    requires s <= q && colon < |s| && s[colon] == ':' &&
             CutInTail(s, colon + 1, Text(ms.v), MembersTail(ms), v, end, sep)
    requires Arrives(q, colon + 1, MemberValueText(ms)) && SteadyMember(ms, members.Keys, key)
    requires MemberYields(s, colon, members, key, a)
    requires MemberYields(q, colon, members, key, b)
    ensures ObjectGrows(a, b)
    decreases ms, 1
  {
    CutPassedYields(s, colon, ms, members, key, v, end, sep, a);
    MemberFollows(s, q, colon, ms, members, key, v, end, sep, b);
    RestGrows(s, q, sep + 1, ms, members, key);
  }

  lemma {:induction false} RestGrows(s: string, q: string, pos: nat, ms: Members, members: map<string, Value>,
                                     key: string)
    requires ms.MoreMembers? && SteadyMember(ms, members.Keys, key)
    requires s <= q && CutAt(s, pos, MembersText(ms.rest)) && Arrives(q, pos, MembersText(ms.rest))
    ensures var so := members[key := Meaning(ms.v)];
            ObjectGrows(ObjectFrom(s, pos, so).outcome, ObjectFrom(q, pos, so).outcome)
    decreases ms, 0
  {
    var so := members[key := Meaning(ms.v)];
    assert so.Keys == members.Keys + {key};
    MembersGrow(s, q, pos, ms.rest, so);
  }

  // ---------------------------------------------------------------- whole texts

  // How far the document has arrived: its value has not begun, or stands after `lead`.
  lemma {:induction false} DocumentStands(q: string, d: Document)
    requires Arrives(q, 0, DocumentText(d))
    ensures CutInLead(q, 0) || (SkipWs(q, 0) == |d.lead| < |q| && Arrives(q, |d.lead|, Text(d.j)))
  {
    assert Asked(0);
    if At(q, 0, DocumentText(d)) {
      AtConcat(q, 0, d.lead, Text(d.j) + d.trail);
      AtConcat(q, |d.lead|, Text(d.j), d.trail);
      SkipBlank(q, 0, d.lead);
      TextStarts(d.j);
      AtCons(q, |d.lead|, Text(d.j));
    } else {
      CutDocumentStands(q, d);
    }
  }

  lemma {:induction false} CutDocumentStands(q: string, d: Document)
    requires CutAt(q, 0, DocumentText(d))
    ensures CutInLead(q, 0) || (SkipWs(q, 0) == |d.lead| < |q| && Arrives(q, |d.lead|, Text(d.j)))
  {
    CutSplit(q, 0, d.lead, Text(d.j) + d.trail);
    if CutAt(q, 0, d.lead) {
      SkipCutBlank(q, 0, d.lead);
    } else {
      SkipBlank(q, 0, d.lead);
      TextStarts(d.j);
      CutSplit(q, |d.lead|, Text(d.j), d.trail);
      if |d.lead| < |q| {
        CutCons(q, |d.lead|, Text(d.j) + d.trail);
        assert SkipWs(q, |d.lead|) == |d.lead|;
      } else {
        assert SkipWs(q, 0) == |q|;
      }
    }
  }

  lemma {:induction false} PrefixArrives(q: string, d: Document)
    requires q <= DocumentText(d)
    ensures Arrives(q, 0, DocumentText(d))
  {
    if q == DocumentText(d) {
      SliceAt(q, 0, q);
    } else {
      PrefixIsCut(q, 0, DocumentText(d), |q|);
    }
  }

  // What a caller is shown for a prefix of a document.
  function Shown(o: Outcome): Value
    requires !o.Bad?
  {
    if o.Empty? then EMPTY_OBJECT else o.value
  }

  lemma {:induction false} SnapshotIs(d: Document, s: string)
    requires s <= DocumentText(d)
    ensures Parse(s) != Invalid && !ValueAt(s, 0).outcome.Bad?
    ensures Parse(s).value == Shown(ValueAt(s, 0).outcome)
  {
    NoPrefixIsInvalid(d, s);
    if StrictText(s).Some? {
      TolerantExtendsStrict(s);
    } else if TrimsToNothing(s) {
      PrefixArrives(s, d);
      DocumentStands(s, d);
      TextStarts(d.j);
      if !CutInLead(s, 0) {
        assert UnicodeSpace(s[|d.lead|]);
        PlacedStarts(s, d);
      }
    }
  }

  // A value does not begin with a character that trimming removes.
  lemma {:induction false} PlacedStarts(s: string, d: Document)
    requires |d.lead| < |s| && Arrives(s, |d.lead|, Text(d.j))
    ensures !UnicodeSpace(s[|d.lead|])
  {
    TextStarts(d.j);
    ArrivesTail(s, |d.lead|, Text(d.j));
    if d.j.JNumber? {
      NumberStarts(d.j.n);
    }
  }

  lemma {:induction false} ObjectStands(q: string, v: nat, j: Json)
    requires v < |q| && Arrives(q, v, Text(j)) && Steady(j) && (j.JObject? || j.JEmptyObject?)
    ensures Found(ValueAt(q, v).outcome) && ValueAt(q, v).outcome.value.Object?
  {
    match j
    case JObject(ms) =>
      ArrivesOn(q, v, '{', MembersText(ms));
      var none: map<string, Value> := map[];
      assert none.Keys == {};
      MembersKeep(q, v + 1, ms, none);
      ValueOpens(q, v);
    case JEmptyObject(gap) => EmptyObjectStands(q, v, gap);
  }

  // While a text whose value is an object arrives, what is shown of it only improves: no
  // name repeated in an object, and no surrogate pair in a string value.
  lemma {:induction false} SnapshotsImprove(d: Document, p: string, q: string)
    requires p <= q <= DocumentText(d)
    requires (d.j.JObject? || d.j.JEmptyObject?) && Steady(d.j)
    ensures Parse(p) != Invalid && Parse(q) != Invalid && Below(Parse(p).value, Parse(q).value)
  {
    SnapshotIs(d, p);
    SnapshotIs(d, q);
    PrefixArrives(p, d);
    PrefixArrives(q, d);
    OutcomesImprove(d, p, q);
  }

  lemma {:induction false} OutcomesImprove(d: Document, p: string, q: string)
    requires p <= q && Arrives(p, 0, DocumentText(d)) && Arrives(q, 0, DocumentText(d))
    requires (d.j.JObject? || d.j.JEmptyObject?) && Steady(d.j)
    requires !ValueAt(p, 0).outcome.Bad? && !ValueAt(q, 0).outcome.Bad?
    ensures Below(Shown(ValueAt(p, 0).outcome), Shown(ValueAt(q, 0).outcome))
  {
    var v := |d.lead|;
    DocumentStands(p, d);
    DocumentStands(q, d);
    if !CutInLead(q, 0) {
      ValueAfterSpace(q, 0, v);
      ObjectStands(q, v, d.j);
    }
    if !CutInLead(p, 0) {
      SkipSame(p, q, 0);
      ValueAfterSpace(p, 0, v);
      BodiesImprove(d.j, p, q, v);
    }
  }

  lemma {:induction false} BodiesImprove(j: Json, p: string, q: string, v: nat)
    requires p <= q && v < |p| && Arrives(p, v, Text(j)) && Arrives(q, v, Text(j))
    requires (j.JObject? || j.JEmptyObject?) && Steady(j)
    ensures Found(ValueAt(p, v).outcome) && OutcomeBelow(ValueAt(p, v).outcome, ValueAt(q, v).outcome)
  {
    assert Asked(0);
    ObjectStands(p, v, j);
    if CutAt(p, v, Text(j)) {
      ValueGrows(p, q, v, j);
    } else {
      AtSame(p, q, v, Text(j));
      ValueReads(p, v, j);
      ValueReads(q, v, j);
      BelowReflexive(Meaning(j));
    }
  }
}
