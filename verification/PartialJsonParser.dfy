// The tolerant parser as it runs: a cursor over the characters, one method per
// construct, each proved to compute the function that specifies it.
module PartialJsonParser {
  import opened Prelude
  import opened JsonNumbers
  import opened JsonText
  import L = JsonLexing
  import opened PartialJson

  class Parser {
    const chars: string
    var pos: nat

    constructor (raw: string)
      ensures chars == raw && pos == 0
    {
      chars, pos := raw, 0;
    }

    ghost predicate Valid()
      reads this
    {
      pos <= |chars|
    }

    predicate AtEnd()
      reads this
    {
      pos >= |chars|
    }

    function Peek(): Option<char>
      reads this
    {
      if pos < |chars| then Some(chars[pos]) else None
    }

    method Bump() returns (ch: Option<char>)
      requires Valid()
      modifies this
      ensures Valid() && ch == old(Peek())
      ensures pos == if ch.Some? then old(pos) + 1 else old(pos)
    {
      ch := Peek();
      if ch.Some? {
        pos := pos + 1;
      }
    }

    method SkipWs()
      requires Valid()
      modifies this
      ensures Valid() && pos == L.SkipWs(chars, old(pos))
    {
      while pos < |chars| && JsonSpace(chars[pos])
        invariant pos <= |chars|
        invariant L.SkipWs(chars, old(pos)) == L.SkipWs(chars, pos)
        decreases |chars| - pos
      {
        pos := pos + 1;
      }
    }

    method Value() returns (r: Outcome)
      requires Valid()
      modifies this
      ensures Valid() && Parsed(r, pos) == ValueAt(chars, old(pos))
      decreases |chars| - pos, 1
    {
      SkipWs();
      match Peek() {
        case None => r := Empty;
        case Some(ch) =>
          if ch == '{' {
            pos := pos + 1;
            r := ObjectBody();
          } else if ch == '[' {
            pos := pos + 1;
            r := ArrayBody();
          } else if ch == '"' {
            r := QuotedString();
          } else if ch == 't' {
            r := Literal("true", Bool(true));
          } else if ch == 'f' {
            r := Literal("false", Bool(false));
          } else if ch == 'n' {
            r := Literal("null", Null);
          } else if ch == '-' || Digit(ch) {
            r := NumberToken();
          } else {
            r := Bad;
          }
      }
    }

    // An object after its `{`.
    method ObjectBody() returns (r: Outcome)
      requires Valid()
      modifies this
      ensures Valid() && Parsed(r, pos) == ObjectFrom(chars, old(pos), map[])
      decreases |chars| - pos, 3
    {
      var members: map<string, Value> := map[];
      while true
        invariant old(pos) <= pos <= |chars|
        invariant ObjectFrom(chars, old(pos), map[]) == ObjectFrom(chars, pos, members)
        decreases |chars| - pos
      {
        SkipWs();
        match Peek() {
          case None => return Cut(Object(members));
          case Some(ch) =>
            if ch == '}' {
              pos := pos + 1;
              return Done(Object(members));
            } else if ch != '"' {
              return Bad;
            }
        }
        var name := QuotedString();
        var key: string;
        match name {
          case Done(String(text)) => key := text;
          case Cut(_) => return Cut(Object(members));
          case Bad => return Bad;
          case Empty => assert false;
          case Done(_) => assert false;
        }
        SkipWs();
        var more;
        more, r, members := MemberBody(members, key);
        if !more {
          return;
        }
      }
    }

    // The rest of one turn of that loop: the colon, the value, and what follows it.
    // `more` is set when the object goes on with another member.
    method MemberBody(before: map<string, Value>, key: string)
      returns (more: bool, r: Outcome, members: map<string, Value>)
      requires Valid()
      modifies this
      ensures old(pos) <= pos <= |chars|
      ensures more ==> old(pos) < pos && MemberFrom(chars, old(pos), before, key) == ObjectFrom(chars, pos, members)
      ensures !more ==> MemberFrom(chars, old(pos), before, key) == Parsed(r, pos)
      decreases |chars| - pos, 0
    {
      more, members := false, before;
      var colon := Bump();
      match colon {
        case None => return false, Cut(Object(members)), members;
        case Some(ch) =>
          if ch != ':' {
            return false, Bad, members;
          }
      }
      r := Value();
      match r {
        case Done(value) => members := members[key := value];
        case Cut(value) =>
          members := members[key := value];
          return false, Cut(Object(members)), members;
        case Empty => return false, Cut(Object(members)), members;
        case Bad => return false, Bad, members;
      }
      SkipWs();
      var next := Bump();
      match next {
        case None => r := Cut(Object(members));
        case Some(ch) =>
          if ch == ',' {
            more := true;
          } else if ch == '}' {
            r := Done(Object(members));
          } else {
            r := Bad;
          }
      }
    }

    // An array after its `[`.
    method ArrayBody() returns (r: Outcome)
      requires Valid()
      modifies this
      ensures Valid() && Parsed(r, pos) == ArrayFrom(chars, old(pos), [])
      decreases |chars| - pos, 3
    {
      var items: seq<Value> := [];
      while true
        invariant old(pos) <= pos <= |chars|
        invariant ArrayFrom(chars, old(pos), []) == ArrayFrom(chars, pos, items)
        decreases |chars| - pos
      {
        var more;
        more, r, items := ElementBody(items);
        if !more {
          return;
        }
      }
    }

    // One turn of that loop. `more` is set when the array goes on with another element.
    method ElementBody(before: seq<Value>) returns (more: bool, r: Outcome, items: seq<Value>)
      requires Valid()
      modifies this
      ensures old(pos) <= pos <= |chars|
      ensures more ==> old(pos) < pos && ArrayFrom(chars, old(pos), before) == ArrayFrom(chars, pos, items)
      ensures !more ==> ArrayFrom(chars, old(pos), before) == Parsed(r, pos)
      decreases |chars| - pos, 2
    {
      more, items := false, before;
      SkipWs();
      match Peek() {
        case None => return false, Cut(Array(items)), items;
        case Some(ch) =>
          if ch == ']' {
            pos := pos + 1;
            return false, Done(Array(items)), items;
          }
      }
      r := Value();
      match r {
        case Done(value) => items := items + [value];
        case Cut(value) =>
          items := items + [value];
          return false, Cut(Array(items)), items;
        case Empty => return false, Cut(Array(items)), items;
        case Bad => return false, Bad, items;
      }
      SkipWs();
      var next := Bump();
      match next {
        case None => r := Cut(Array(items));
        case Some(ch) =>
          if ch == ',' {
            more := true;
          } else if ch == ']' {
            r := Done(Array(items));
          } else {
            r := Bad;
          }
      }
    }

    // A string starting at its opening quote.
    method QuotedString() returns (r: Outcome)
      requires Valid() && Peek() == Some('"')
      modifies this
      ensures Valid() && Parsed(r, pos) == StringFrom(chars, old(pos) + 1, "")
    {
      pos := pos + 1;
      var out := "";
      while true
        invariant old(pos) + 1 <= pos <= |chars|
        invariant StringFrom(chars, old(pos) + 1, "") == StringFrom(chars, pos, out)
        decreases |chars| - pos
      {
        var ch := Bump();
        match ch {
          case None => return Cut(String(out));
          case Some(c) =>
            if c == '"' {
              return Done(String(out));
            } else if c == '\\' {
              var escape := Bump();
              match escape {
                case None => return Cut(String(out));
                case Some(e) =>
                  if e == 'u' {
                    var decoded := Unicode();
                    match decoded {
                      case Some(d) => out := out + [d];
                      case None => if AtEnd() { return Cut(String(out)); } else { return Bad; }
                    }
                  } else {
                    out := out + [Unescape(e)];
                  }
              }
            } else {
              out := out + [c];
            }
        }
      }
    }

    // A `\uXXXX` sequence after its `\u`; a high surrogate that is not completed
    // gives back everything read after it.
    method Unicode() returns (r: Option<char>)
      requires Valid()
      modifies this
      ensures Valid() && (r, pos) == UnicodeEscape(chars, old(pos))
    {
      var first := ReadHex4();
      if first == None {
        return None;
      }
      var code := first.value;
      if IsHigh(code) {
        var saved := pos;
        var backslash := Bump();
        if backslash == Some('\\') {
          var u := Bump();
          if u == Some('u') {
            var second := ReadHex4();
            if second.Some? && IsLow(second.value) {
              return Some(Combine(code, second.value));
            }
          }
        }
        pos := saved;
        r := Some(REPLACEMENT);
      } else if IsLow(code) {
        r := Some(REPLACEMENT);
      } else {
        r := Some(code as char);
      }
    }

    method ReadHex4() returns (r: Option<nat>)
      requires Valid()
      modifies this
      ensures Valid() && (r, pos) == L.Hex4(chars, old(pos))
    {
      var value: nat := 0;
      for i := 0 to 4
        invariant pos <= |chars| && 0 <= i <= 4
        invariant L.HexFrom(chars, old(pos), 4, 0) == L.HexFrom(chars, pos, 4 - i, value)
      {
        var ch := Bump();
        if ch == None {
          return None;
        }
        var digit := HexDigit(ch.value);
        if digit == None {
          return None;
        }
        value := value * 16 + digit.value;
      }
      r := Some(value);
    }

    method NumberToken() returns (r: Outcome)
      requires Valid()
      modifies this
      ensures Valid() && Parsed(r, pos) == NumberAt(chars, old(pos))
    {
      var start := pos;
      while pos < |chars| && NumberChar(chars[pos])
        invariant start <= pos <= |chars|
        invariant L.NumberEnd(chars, start) == L.NumberEnd(chars, pos)
        decreases |chars| - pos
      {
        pos := pos + 1;
      }
      var token := chars[start..pos];
      if ValidNumber(token) {
        return Done(Number(token));
      }
      if !AtEnd() {
        return Bad;
      }
      while true
        invariant BestNumber(chars[start..pos]) == BestNumber(token)
        decreases |token|
      {
        if ValidNumber(token) {
          return Cut(Number(token));
        }
        if token == "" {
          return Empty;
        }
        var last := token[|token| - 1];
        if !Strippable(last) {
          return Bad;
        }
        token := token[..|token| - 1];
      }
    }

    method Literal(word: string, value: Value) returns (r: Outcome)
      requires Valid()
      modifies this
      ensures Valid() && Parsed(r, pos) == LiteralFrom(chars, old(pos), word, value)
    {
      assert word[0..] == word;
      for i := 0 to |word|
        invariant pos <= |chars|
        invariant LiteralFrom(chars, old(pos), word, value) == LiteralFrom(chars, pos, word[i..], value)
      {
        assert word[i..][1..] == word[i + 1..];
        var ch := Bump();
        match ch {
          case None => return Cut(value);
          case Some(c) =>
            if c != word[i] {
              return Bad;
            }
        }
      }
      r := Done(value);
    }
  }

  // Best-effort parsing of accumulated tool-call arguments.
  method ParseArguments(raw: string) returns (r: PartialArguments)
    ensures r == Parse(raw)
  {
    match StrictText(raw) {
      case Some(value) => return Complete(value);
      case None =>
    }
    if TrimsToNothing(raw) {
      return Partial(EMPTY_OBJECT);
    }
    var parser := new Parser(raw);
    var outcome := parser.Value();
    match outcome {
      case Done(value) =>
        parser.SkipWs();
        r := if parser.AtEnd() then Partial(value) else Invalid;
      case Cut(value) => r := Partial(value);
      case Empty => r := Partial(EMPTY_OBJECT);
      case Bad => r := Invalid;
    }
  }
}
