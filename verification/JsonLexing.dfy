// The character-level steps both JSON parsers take, as functions of the text and a
// position in it.
module JsonLexing {
  import opened Prelude
  import opened JsonNumbers
  import opened JsonText

  function SkipWs(s: string, pos: nat): (p: nat)
    requires pos <= |s|
    ensures pos <= p <= |s|
    ensures p < |s| ==> !JsonSpace(s[p])
    decreases |s| - pos
  {
    if pos < |s| && JsonSpace(s[pos]) then SkipWs(s, pos + 1) else pos
  }

  // `left` more hex digits.
  function HexFrom(s: string, pos: nat, left: nat, value: nat): (r: (Option<nat>, nat))
    requires pos <= |s|
    ensures pos <= r.1 <= |s|
    ensures r.0.Some? ==> r.1 == pos + left
    decreases |s| - pos
  {
    if left == 0 then (Some(value), pos)
    else if pos == |s| then (None, pos)
    else
      match HexDigit(s[pos])
      case None => (None, pos + 1)
      case Some(digit) => HexFrom(s, pos + 1, left - 1, value * 16 + digit)
  }

  function Hex4(s: string, pos: nat): (r: (Option<nat>, nat))
    requires pos <= |s|
    ensures pos <= r.1 <= |s|
    ensures r.0.Some? ==> r.1 == pos + 4 && r.0.value < 0x10000
  {
    HexBound(s, pos, 4, 0, 0);
    HexFrom(s, pos, 4, 0)
  }

  function Pow16(n: nat): nat {
    if n == 0 then 1 else 16 * Pow16(n - 1)
  }

  lemma {:induction false} HexBound(s: string, pos: nat, left: nat, value: nat, read: nat)
    requires pos <= |s| && value < Pow16(read) && left + read == 4
    ensures var r := HexFrom(s, pos, left, value); r.0.Some? ==> r.0.value < 0x10000
    decreases left
  {
    if left == 0 {
      assert Pow16(4) == 16 * Pow16(3) && Pow16(3) == 16 * Pow16(2) && Pow16(2) == 16 * Pow16(1);
    } else if pos < |s| && HexDigit(s[pos]).Some? {
      HexBound(s, pos + 1, left - 1, value * 16 + HexDigit(s[pos]).value, read + 1);
    }
  }

  function IsUnicodeStart(s: string, pos: nat): bool {
    pos + 1 < |s| && s[pos] == '\\' && s[pos + 1] == 'u'
  }

  // The end of the number characters starting at `pos`.
  function NumberEnd(s: string, pos: nat): (p: nat)
    requires pos <= |s|
    ensures pos <= p <= |s|
    ensures p < |s| ==> !NumberChar(s[p])
    decreases |s| - pos
  {
    if pos < |s| && NumberChar(s[pos]) then NumberEnd(s, pos + 1) else pos
  }
}
