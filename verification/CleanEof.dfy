// Completion inferred from a clean end of the stream: when the arguments the adapter found
// complete are ones the assembler can end the call with.
module CleanEof {
  import opened Prelude
  import Messages
  import opened Assembler
  import opened JsonNumbers
  import opened JsonText
  import opened JsonLexing
  import opened JsonPlaces
  import opened JsonReading
  import opened JsonStrict
  import opened PartialJson
  import opened ProtocolRuns
  import opened OpenAiAdapter
  import opened OpenAiTheorems
  import Executor

  // ---------------------------------------------------------------- trimming

  function LeadOf(s: string): string {
    s[..TrimStartLength(s)]
  }

  // How many characters trimming takes off the front.
  function TrimStartLength(s: string): (n: nat)
    ensures n <= |s|
    decreases |s|
  {
    if s != "" && UnicodeSpace(s[0]) then 1 + TrimStartLength(s[1..]) else 0
  }

  function TrailOf(s: string): string {
    TrimmedStart(s)[|Trimmed(s)|..]
  }

  lemma {:induction false} StartTrims(s: string)
    ensures TrimmedStart(s) == s[TrimStartLength(s)..]
    ensures TrimsToNothing(s[..TrimStartLength(s)])
    ensures TrimmedStart(s) != "" ==> !UnicodeSpace(TrimmedStart(s)[0])
    decreases |s|
  {
    if s != "" && UnicodeSpace(s[0]) {
      StartTrims(s[1..]);
      var n := TrimStartLength(s[1..]);
      assert s[1..][n..] == s[n + 1..];
      forall k | 0 <= k < n + 1
        ensures UnicodeSpace(s[k])
      {
        assert k > 0 ==> s[k] == s[1..][..n][k - 1];
      }
    }
  }

  lemma {:induction false} EndTrims(s: string)
    ensures |TrimmedEnd(s)| <= |s| && TrimmedEnd(s) == s[..|TrimmedEnd(s)|]
    ensures TrimsToNothing(s[|TrimmedEnd(s)|..])
    ensures TrimmedEnd(s) != "" ==> !UnicodeSpace(TrimmedEnd(s)[|TrimmedEnd(s)| - 1])
    decreases |s|
  {
    if s != "" && UnicodeSpace(s[|s| - 1]) {
      var before := s[..|s| - 1];
      EndTrims(before);
      var n := |TrimmedEnd(s)|;
      forall k | n <= k < |s|
        ensures UnicodeSpace(s[k])
      {
        assert k < |s| - 1 ==> s[k] == before[n..][k - n];
      }
    }
  }

  // Trimming takes off whitespace on both sides, and all of it.
  lemma {:induction false} TrimIs(s: string)
    ensures |LeadOf(s)| + |Trimmed(s)| <= |s| && s == LeadOf(s) + (Trimmed(s) + TrailOf(s))
    ensures TrimsToNothing(LeadOf(s)) && TrimsToNothing(TrailOf(s))
    ensures Trimmed(s) != "" ==> !UnicodeSpace(Trimmed(s)[0]) && !UnicodeSpace(Trimmed(s)[|Trimmed(s)| - 1])
  {
    StartTrims(s);
    EndTrims(TrimmedStart(s));
    var n := |LeadOf(s)|;
    assert TrimmedStart(s)[|Trimmed(s)|..] == s[n + |Trimmed(s)|..];
    assert TrimmedStart(s) == Trimmed(s) + TrailOf(s);
    assert Trimmed(s) != "" ==> Trimmed(s)[0] == TrimmedStart(s)[0];
  }

  // ---------------------------------------------------------------- padding

  lemma {:induction false} BlankJoin(a: Ws, b: Ws)
    ensures Blank(a + b)
  {
    forall i | 0 <= i < |a + b| && Offset(i)
      ensures JsonSpace((a + b)[i])
    {
      assert Offset(i - |a|);
    }
  }

  // JSON's own whitespace around a complete text leaves it complete.
  lemma {:induction false} PaddedIsComplete(lead: Ws, core: string, trail: Ws)
    requires StrictText(core).Some?
    ensures Parse(lead + (core + trail)) == Complete(StrictText(core).value)
  {
    var d := StrictTextSound(core);
    BlankJoin(lead, d.lead);
    BlankJoin(d.trail, trail);
    var wide := Document(lead + d.lead, d.j, d.trail + trail);
    assert DocumentText(wide) == lead + (core + trail);
    StrictAcceptsDocument(wide);
  }

  lemma {:induction false} SkipStopsAt(s: string, pos: nat, k: nat)
    requires pos <= k < |s| && !JsonSpace(s[k])
    ensures SkipWs(s, pos) <= k
    decreases k - pos
  {
    if pos < k && JsonSpace(s[pos]) {
      SkipStopsAt(s, pos + 1, k);
    }
  }

  // Whitespace that only Unicode knows, in front: no value begins there.
  lemma {:induction false} WideLeadIsInvalid(lead: string, rest: string)
    requires TrimsToNothing(lead) && !Blank(lead) && rest != "" && !UnicodeSpace(rest[0])
    ensures Parse(lead + rest).Invalid?
  {
    var s := lead + rest;
    var k :| 0 <= k < |lead| && Offset(k) && !JsonSpace(lead[k]);
    SkipStopsAt(s, 0, k);
    var p := SkipWs(s, 0);
    assert s[p] == lead[p] && UnicodeSpace(s[p]) && !JsonSpace(s[p]);
    assert s[|lead|] == rest[0];
    NoValueBegins(s, p);
  }

  lemma {:induction false} NoValueBegins(s: string, p: nat)
    requires p < |s| && SkipWs(s, 0) == p && UnicodeSpace(s[p])
    ensures StrictText(s) == None && ValueAt(s, 0).outcome.Bad?
  {
  }

  // The same behind: the value is read, and something is left over.
  lemma {:induction false} WideTrailIsInvalid(lead: Ws, core: string, trail: string)
    requires StrictText(core).Some? && core != "" && !UnicodeSpace(core[0]) && !UnicodeSpace(core[|core| - 1])
    requires TrimsToNothing(trail) && !Blank(trail)
    ensures Parse(lead + (core + trail)).Invalid?
  {
    var s, end := lead + (core + trail), |lead| + |core|;
    var v := BothReadTheCore(lead, core, trail);
    var k :| 0 <= k < |trail| && Offset(k) && !JsonSpace(trail[k]);
    assert s[end + k] == trail[k];
    SkipStopsAt(s, end, end + k);
    assert s[|lead|] == core[0];
  }

  lemma {:induction false} BothReadTheCore(lead: Ws, core: string, trail: string) returns (v: Value)
    requires StrictText(core).Some? && core != "" && !UnicodeSpace(core[0]) && !UnicodeSpace(core[|core| - 1])
    requires TrimsToNothing(trail) && trail != ""
    ensures var s, end := lead + (core + trail), |lead| + |core|;
            ValueAt(s, 0) == Parsed(Done(v), end) && StrictValue(s, 0) == Accept(v, end)
  {
    var d := StrictTextSound(core);
    v := Meaning(d.j);
    TightDocument(d, core);
    CorePlaces(lead, core, trail);
    var s := lead + (core + trail);
    ValueReadsAfterSpace(s, 0, |lead|, d.j);
    StrictReadsAfterSpace(s, 0, |lead|, d.j);
  }

  lemma {:induction false} CorePlaces(lead: Ws, core: string, trail: string)
    requires core != "" && !UnicodeSpace(core[0]) && TrimsToNothing(trail) && trail != ""
    ensures var s := lead + (core + trail);
            At(s, |lead|, core) && SkipWs(s, 0) == |lead| && |lead| + |core| < |s| && !NumberChar(s[|lead| + |core|])
  {
    var s := lead + (core + trail);
    SliceAt(s, 0, lead);
    SliceAt(s, |lead|, core);
    SkipBlank(s, 0, lead);
    assert s[|lead|] == core[0];
    assert s[|lead| + |core|] == trail[0];
  }

  lemma {:induction false} BlankEnds(gap: Ws, rest: string)
    ensures gap != "" ==> UnicodeSpace((gap + rest)[0]) && UnicodeSpace((rest + gap)[|rest| + |gap| - 1])
  {
    assert gap != "" ==> Offset(0) && Offset(|gap| - 1);
  }

  // A document without whitespace around it is its value's text.
  lemma {:induction false} TightDocument(d: Document, core: string)
    requires DocumentText(d) == core && core != "" && !UnicodeSpace(core[0]) && !UnicodeSpace(core[|core| - 1])
    ensures JsonText.Text(d.j) == core
  {
    BlankEnds(d.lead, JsonText.Text(d.j) + d.trail);
    BlankEnds(d.trail, d.lead + JsonText.Text(d.j));
    assert core == (d.lead + JsonText.Text(d.j)) + d.trail;
  }

  // ---------------------------------------------------------------- inferred completion

  // Only JSON's whitespace surrounds the text.
  predicate PaddedByJson(s: string) {
    Blank(LeadOf(s)) && Blank(TrailOf(s))
  }

  // The arguments `arguments_complete` approves can end their call exactly when there are
  // none, or when only JSON's whitespace was trimmed off them.
  lemma {:induction false} CompleteArgumentsEnd(accum: ToolAccum)
    requires ArgumentsComplete(accum)
    ensures !Parse(accum.arguments).Invalid? <==> Trimmed(accum.arguments) == "" || PaddedByJson(accum.arguments)
  {
    var s := accum.arguments;
    var lead, core, trail := LeadOf(s), Trimmed(s), TrailOf(s);
    TrimIs(s);
    if core == "" {
      assert TrimsToNothing(s);
    } else if !Blank(lead) {
      WideLeadIsInvalid(lead, core + trail);
    } else if !Blank(trail) {
      WideTrailIsInvalid(lead, core, trail);
    } else {
      PaddedIsComplete(lead, core, trail);
    }
  }

  // Where completion is inferred, no end of a tool call fails exactly when every started
  // call's arguments are empty or surrounded only by JSON's whitespace.
  lemma {:induction false} InferredCompletion(wire: Wire, message: Messages.AssistantMessage,
                                              input: seq<Executor.ExecutorEvent>)
    requires message.content == []
    requires var ended := Receive(wire, NOTHING_YET, input).ended;
             ended.Some? && !ended.value.formal && Inferred(wire, ended.value.slots)
    ensures var tools := Receive(wire, NOTHING_YET, input).ended.value.slots.tools;
            Accepted(Initial(message), Streamed(wire, input)) <==>
            forall k :: 0 <= k < |tools| && tools[k].block.Some? ==>
              Trimmed(tools[k].arguments) == "" || PaddedByJson(tools[k].arguments)
  {
    var tools := Receive(wire, NOTHING_YET, input).ended.value.slots.tools;
    StreamIsOrderly(wire, message, input);
    forall k | 0 <= k < |tools|
      ensures !Parse(tools[k].arguments).Invalid? <==>
              Trimmed(tools[k].arguments) == "" || PaddedByJson(tools[k].arguments)
    {
      CompleteArgumentsEnd(tools[k]);
    }
  }

  // A no-break space in front of `{}` passes the adapter's check and fails the assembler's.
  lemma {:induction false} NoBreakSpaceFails()
    ensures var accum := ToolAccum("1", "read", Some(0), "\U{A0}{}");
            ArgumentsComplete(accum) && Parse(accum.arguments).Invalid?
  {
    var s := "\U{A0}{}";
    assert TrimmedStart(s) == s[1..] == "{}";
    assert StrictText("{}").Some? by {
      StrictAcceptsDocument(Document("", JEmptyObject(""), ""));
      assert DocumentText(Document("", JEmptyObject(""), "")) == "{}";
    }
    assert SkipWs(s, 0) == 0 && s[0] == '\U{A0}' && s[1] == '{';
    NoValueBegins(s, 0);
  }
}
