// JSON number tokens: the grammar of RFC 8259 section 6, and an automaton that
// recognises it one character at a time.
module JsonNumbers {
  import opened Prelude

  // ---------------------------------------------------------------- the grammar

  predicate Digit(c: char) {
    '0' <= c <= '9'
  }

  predicate Digits(s: string) {
    s != [] && forall k :: 0 <= k < |s| ==> Digit(s[k])
  }

  // number = [ minus ] int [ frac ] [ exp ]
  datatype NumberText = NumberText(minus: bool, whole: string, frac: Option<string>, exp: Option<Exponent>)

  // exp = e [ minus / plus ] 1*DIGIT
  datatype Exponent = Exponent(e: char, sign: Option<char>, digits: string)

  predicate WellFormedNumber(n: NumberText) {
    && Digits(n.whole)
    && (n.whole[0] == '0' ==> |n.whole| == 1)
    && (n.frac.Some? ==> Digits(n.frac.value))
    && (n.exp.Some? ==>
      && (n.exp.value.e == 'e' || n.exp.value.e == 'E')
      && (n.exp.value.sign.Some? ==> n.exp.value.sign.value == '+' || n.exp.value.sign.value == '-')
      && Digits(n.exp.value.digits))
  }

  function MinusText(n: NumberText): string {
    if n.minus then "-" else ""
  }

  function FracText(n: NumberText): string {
    if n.frac.Some? then "." + n.frac.value else ""
  }

  function ExpText(n: NumberText): string {
    match n.exp
    case None => ""
    case Some(x) => [x.e] + (if x.sign.Some? then [x.sign.value] else []) + x.digits
  }

  function NumberToken(n: NumberText): string {
    MinusText(n) + n.whole + FracText(n) + ExpText(n)
  }

  // ---------------------------------------------------------------- the automaton

  datatype NumState = Start | Minus | Zero | Int | Dot | Frac | Exp | ExpSign | ExpDigits | Dead

  function Step(q: NumState, c: char): NumState {
    match q
    case Start => if c == '-' then Minus else if c == '0' then Zero else if Digit(c) then Int else Dead
    case Minus => if c == '0' then Zero else if Digit(c) then Int else Dead
    case Zero => AfterInt(c)
    case Int => if Digit(c) then Int else AfterInt(c)
    case Dot => if Digit(c) then Frac else Dead
    case Frac => if Digit(c) then Frac else AfterFrac(c)
    case Exp => if c == '+' || c == '-' then ExpSign else if Digit(c) then ExpDigits else Dead
    case ExpSign => if Digit(c) then ExpDigits else Dead
    case ExpDigits => if Digit(c) then ExpDigits else Dead
    case Dead => Dead
  }

  function AfterInt(c: char): NumState {
    if c == '.' then Dot else AfterFrac(c)
  }

  function AfterFrac(c: char): NumState {
    if c == 'e' || c == 'E' then Exp else Dead
  }

  predicate Accepting(q: NumState) {
    q == Zero || q == Int || q == Frac || q == ExpDigits
  }

  function NumRun(q: NumState, s: string): NumState
    decreases |s|
  {
    if s == [] then q else NumRun(Step(q, s[0]), s[1..])
  }

  // Whether a token made of number characters is one JSON number.
  predicate ValidNumber(token: string) {
    Accepting(NumRun(Start, token))
  }

  predicate NumberChar(c: char) {
    Digit(c) || c == '.' || c == '+' || c == '-' || c == 'e' || c == 'E'
  }

  predicate NumberChars(s: string) {
    forall k :: 0 <= k < |s| ==> NumberChar(s[k])
  }

  // ---------------------------------------------------------------- automaton facts

  lemma {:induction false} NumRunAppend(q: NumState, a: string, b: string)
    ensures NumRun(q, a + b) == NumRun(NumRun(q, a), b)
    decreases |a|
  {
    if a == [] {
      assert a + b == b;
    } else {
      assert (a + b)[1..] == a[1..] + b;
      NumRunAppend(Step(q, a[0]), a[1..], b);
    }
  }

  lemma {:induction false} NumRunSnoc(q: NumState, a: string, c: char)
    ensures NumRun(q, a + [c]) == Step(NumRun(q, a), c)
  {
    NumRunAppend(q, a, [c]);
    assert [c][1..] == [];
    assert NumRun(Step(NumRun(q, a), c), []) == Step(NumRun(q, a), c);
  }

  lemma {:induction false} DeadStaysDead(s: string)
    ensures NumRun(Dead, s) == Dead
    decreases |s|
  {
    if s != [] {
      DeadStaysDead(s[1..]);
    }
  }

  lemma {:induction false} DigitsLoop(q: NumState, s: string)
    requires q == Int || q == Frac || q == ExpDigits
    requires forall k :: 0 <= k < |s| ==> Digit(s[k])
    ensures NumRun(q, s) == q
    decreases |s|
  {
    if s != [] {
      assert Digit(s[0]);
      assert forall k :: 0 <= k < |s[1..]| ==> s[1..][k] == s[k + 1];
      DigitsLoop(q, s[1..]);
    }
  }

  // The first digit moves to `q`, the others stay there.
  lemma {:induction false} DigitsFrom(p: NumState, q: NumState, s: string)
    requires Digits(s) && Step(p, s[0]) == q
    requires q == Int || q == Frac || q == ExpDigits
    ensures NumRun(p, s) == q
  {
    DigitsLoop(q, s[1..]);
  }

  lemma {:induction false} IntAccepted(n: NumberText)
    requires WellFormedNumber(n)
    ensures NumRun(Start, MinusText(n) + n.whole) == if n.whole[0] == '0' then Zero else Int
  {
    var q := if n.minus then Minus else Start;
    assert NumRun(Start, MinusText(n)) == q by {
      if n.minus {
        NumRunSnoc(Start, [], '-');
        assert [] + ['-'] == MinusText(n);
      }
    }
    NumRunAppend(Start, MinusText(n), n.whole);
    assert Digit(n.whole[0]);
    if n.whole[0] == '0' {
      assert n.whole == [] + ['0'];
      NumRunSnoc(q, [], '0');
    } else {
      DigitsFrom(q, Int, n.whole);
    }
  }

  lemma {:induction false} FracAccepted(p: NumState, n: NumberText)
    requires WellFormedNumber(n) && (p == Zero || p == Int)
    ensures NumRun(p, FracText(n)) == if n.frac.Some? then Frac else p
  {
    if n.frac.Some? {
      var digits := n.frac.value;
      assert FracText(n)[1..] == digits;
      DigitsFrom(Dot, Frac, digits);
    }
  }

  lemma {:induction false} ExpAccepted(p: NumState, n: NumberText)
    requires WellFormedNumber(n) && (p == Zero || p == Int || p == Frac)
    ensures NumRun(p, ExpText(n)) == if n.exp.Some? then ExpDigits else p
  {
    if n.exp.Some? {
      var x := n.exp.value;
      var tail := (if x.sign.Some? then [x.sign.value] else []) + x.digits;
      assert ExpText(n) == [x.e] + tail;
      assert ExpText(n)[1..] == tail;
      if x.sign.Some? {
        assert tail[1..] == x.digits;
        DigitsFrom(ExpSign, ExpDigits, x.digits);
      } else {
        assert tail == x.digits;
        DigitsFrom(Exp, ExpDigits, x.digits);
      }
    }
  }

  // The automaton accepts everything the grammar derives.
  lemma {:induction false} NumberAccepted(n: NumberText)
    requires WellFormedNumber(n)
    ensures ValidNumber(NumberToken(n))
  {
    var a, b, c := MinusText(n) + n.whole, FracText(n), ExpText(n);
    IntAccepted(n);
    var p := NumRun(Start, a);
    FracAccepted(p, n);
    ExpAccepted(NumRun(p, b), n);
    NumRunAppend(Start, a, b);
    NumRunAppend(Start, a + b, c);
  }

  // What a token read so far amounts to, state by state.
  ghost predicate Reads(q: NumState, s: string) {
    match q
    case Start => s == ""
    case Minus => s == "-"
    case Zero =>
      exists n :: WellFormedNumber(n) && n.whole == "0" && n.frac == None && n.exp == None && s == NumberToken(n)
    case Int =>
      exists n :: WellFormedNumber(n) && n.whole[0] != '0' && n.frac == None && n.exp == None && s == NumberToken(n)
    case Dot => exists n :: WellFormedNumber(n) && n.frac == None && n.exp == None && s == NumberToken(n) + "."
    case Frac => exists n :: WellFormedNumber(n) && n.frac.Some? && n.exp == None && s == NumberToken(n)
    case Exp =>
      exists n, e :: WellFormedNumber(n) && n.exp == None && (e == 'e' || e == 'E') && s == NumberToken(n) + [e]
    case ExpSign =>
      exists n, e, c :: WellFormedNumber(n) && n.exp == None && (e == 'e' || e == 'E') && (c == '+' || c == '-') &&
        s == NumberToken(n) + [e, c]
    case ExpDigits => exists n :: WellFormedNumber(n) && n.exp.Some? && s == NumberToken(n)
    case Dead => true
  }

  lemma {:induction false} NoExpToken(n: NumberText)
    requires n.exp == None
    ensures NumberToken(n) == MinusText(n) + n.whole + FracText(n)
  {
  }

  lemma {:induction false} StartReads(minus: bool, c: char)
    requires Digit(c)
    ensures Reads(if c == '0' then Zero else Int, (if minus then "-" else "") + [c])
  {
    var n := NumberText(minus, [c], None, None);
    assert WellFormedNumber(n);
    assert NumberToken(n) == (if minus then "-" else "") + [c];
  }

  lemma {:induction false} IntReads(n: NumberText, c: char)
    requires WellFormedNumber(n) && n.whole[0] != '0' && n.frac == None && n.exp == None && Digit(c)
    ensures Reads(Int, NumberToken(n) + [c])
  {
    var m := n.(whole := n.whole + [c]);
    assert WellFormedNumber(m);
    assert NumberToken(m) == NumberToken(n) + [c];
  }

  lemma {:induction false} FirstFracDigit(n: NumberText, s: string, c: char)
    requires WellFormedNumber(n) && n.frac == None && n.exp == None && Digit(c) && s == NumberToken(n) + "."
    ensures Reads(Frac, s + [c])
  {
    var m := n.(frac := Some([c]));
    assert WellFormedNumber(m);
    assert NumberToken(m) == s + [c];
  }

  lemma {:induction false} MoreFracDigits(n: NumberText, c: char)
    requires WellFormedNumber(n) && n.frac.Some? && n.exp == None && Digit(c)
    ensures Reads(Frac, NumberToken(n) + [c])
  {
    var m := n.(frac := Some(n.frac.value + [c]));
    assert WellFormedNumber(m);
    assert NumberToken(m) == NumberToken(n) + [c];
  }

  lemma {:induction false} FirstExpDigit(n: NumberText, e: char, s: string, c: char)
    requires WellFormedNumber(n) && n.exp == None && Digit(c) && (e == 'e' || e == 'E') && s == NumberToken(n) + [e]
    ensures Reads(ExpDigits, s + [c])
  {
    var m := n.(exp := Some(Exponent(e, None, [c])));
    assert WellFormedNumber(m);
    NoExpToken(n);
    assert NumberToken(m) == s + [c];
  }

  lemma {:induction false} SignedExpDigit(n: NumberText, e: char, x: char, s: string, c: char)
    requires WellFormedNumber(n) && n.exp == None && Digit(c) && (e == 'e' || e == 'E') && (x == '+' || x == '-')
    requires s == NumberToken(n) + [e, x]
    ensures Reads(ExpDigits, s + [c])
  {
    var m := n.(exp := Some(Exponent(e, Some(x), [c])));
    assert WellFormedNumber(m);
    NoExpToken(n);
    assert NumberToken(m) == s + [c];
  }

  lemma {:induction false} MoreExpDigits(n: NumberText, c: char)
    requires WellFormedNumber(n) && n.exp.Some? && Digit(c)
    ensures Reads(ExpDigits, NumberToken(n) + [c])
  {
    var m := n.(exp := Some(n.exp.value.(digits := n.exp.value.digits + [c])));
    assert WellFormedNumber(m);
    assert NumberToken(m) == NumberToken(n) + [c];
  }

  lemma {:induction false} DigitReads(q: NumState, s: string, c: char)
    requires Reads(q, s) && Digit(c) && q != Dead
    ensures Reads(Step(q, c), s + [c])
  {
    match q
    case Start =>
      StartReads(false, c);
      assert "" + [c] == s + [c];
    case Minus => StartReads(true, c);
    case Zero =>
    case Int =>
      var n :| WellFormedNumber(n) && n.whole[0] != '0' && n.frac == None && n.exp == None && s == NumberToken(n);
      IntReads(n, c);
    case Dot | Frac => FracDigitReads(q, s, c);
    case Exp | ExpSign | ExpDigits => ExpDigitReads(q, s, c);
  }

  lemma {:induction false} FracDigitReads(q: NumState, s: string, c: char)
    requires Reads(q, s) && Digit(c) && (q == Dot || q == Frac)
    ensures Reads(Frac, s + [c])
  {
    if q == Dot {
      var n :| WellFormedNumber(n) && n.frac == None && n.exp == None && s == NumberToken(n) + ".";
      FirstFracDigit(n, s, c);
    } else {
      var n :| WellFormedNumber(n) && n.frac.Some? && n.exp == None && s == NumberToken(n);
      MoreFracDigits(n, c);
    }
  }

  lemma {:induction false} ExpDigitReads(q: NumState, s: string, c: char)
    requires Reads(q, s) && Digit(c) && (q == Exp || q == ExpSign || q == ExpDigits)
    ensures Reads(ExpDigits, s + [c])
  {
    match q
    case Exp =>
      var n, e :| WellFormedNumber(n) && n.exp == None && (e == 'e' || e == 'E') && s == NumberToken(n) + [e];
      FirstExpDigit(n, e, s, c);
    case ExpSign =>
      var n, e, x :| WellFormedNumber(n) && n.exp == None && (e == 'e' || e == 'E') && (x == '+' || x == '-') &&
        s == NumberToken(n) + [e, x];
      SignedExpDigit(n, e, x, s, c);
    case ExpDigits =>
      var n :| WellFormedNumber(n) && n.exp.Some? && s == NumberToken(n);
      MoreExpDigits(n, c);
  }

  lemma {:induction false} SymbolReads(q: NumState, s: string, c: char)
    requires Reads(q, s) && !Digit(c)
    ensures Reads(Step(q, c), s + [c])
  {
    match q
    case Exp =>
      if c == '+' || c == '-' {
        var n, e :| WellFormedNumber(n) && n.exp == None && (e == 'e' || e == 'E') && s == NumberToken(n) + [e];
        assert s + [c] == NumberToken(n) + [e, c];
      }
    case _ =>
  }

  lemma {:induction false} RunReads(s: string)
    ensures Reads(NumRun(Start, s), s)
    decreases |s|
  {
    if s != [] {
      var most, c := s[..|s| - 1], s[|s| - 1];
      assert s == most + [c];
      RunReads(most);
      NumRunSnoc(Start, most, c);
      if Digit(c) && NumRun(Start, most) != Dead {
        DigitReads(NumRun(Start, most), most, c);
      } else if !Digit(c) {
        SymbolReads(NumRun(Start, most), most, c);
      }
    }
  }

  // The automaton accepts exactly what the grammar derives.
  lemma {:induction false} NumberGrammar(token: string)
    ensures ValidNumber(token) <==> exists n :: WellFormedNumber(n) && NumberToken(n) == token
  {
    RunReads(token);
    forall n | WellFormedNumber(n) && NumberToken(n) == token
      ensures ValidNumber(token)
    {
      NumberAccepted(n);
    }
  }

  lemma {:induction false} LiveRunHasNumberChars(q: NumState, s: string)
    requires NumRun(q, s) != Dead
    ensures NumberChars(s)
    decreases |s|
  {
    if s != [] {
      if Step(q, s[0]) == Dead {
        DeadStaysDead(s[1..]);
      }
      LiveRunHasNumberChars(Step(q, s[0]), s[1..]);
      assert forall k :: 1 <= k < |s| ==> s[k] == s[1..][k - 1];
    }
  }
}
