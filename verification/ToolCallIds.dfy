// Rewriting tool-call ids to the shape every protocol accepts.
module ToolCallIds {
  import opened Prelude

  const MAX_TOOL_CALL_ID_LEN: nat := 64
  const REWRITE_PREFIX_LEN: nat := 64 - 1 - 16

  predicate IdChar(c: char) {
    'a' <= c <= 'z' || 'A' <= c <= 'Z' || '0' <= c <= '9' || c == '_' || c == '-'
  }

  // `^[a-zA-Z0-9_-]{1,64}$`. Bytes and characters agree on the ids this accepts.
  predicate ValidId(id: string) {
    0 < |id| <= MAX_TOOL_CALL_ID_LEN && forall k :: 0 <= k < |id| ==> IdChar(id[k])
  }

  // ---------------------------------------------------------------- the hash

  // UTF-8, as bytes.
  function Utf8(c: char): seq<bv64> {
    var n := c as int;
    if n < 0x80 then [n as bv64]
    else if n < 0x800 then [(0xC0 + n / 0x40) as bv64, (0x80 + n % 0x40) as bv64]
    else if n < 0x10000 then [(0xE0 + n / 0x1000) as bv64, (0x80 + n / 0x40 % 0x40) as bv64, (0x80 + n % 0x40) as bv64]
    else [(0xF0 + n / 0x40000) as bv64, (0x80 + n / 0x1000 % 0x40) as bv64, (0x80 + n / 0x40 % 0x40) as bv64,
          (0x80 + n % 0x40) as bv64]
  }

  function Fold(hash: bv64, bytes: seq<bv64>): bv64
    decreases |bytes|
  {
    if bytes == [] then hash else Fold((hash ^ bytes[0]) * 0x100_0000_01b3, bytes[1..])
  }

  // FNV-1a over the UTF-8 bytes of the id.
  function Fnv1a64(hash: bv64, id: string): bv64
    decreases |id|
  {
    if id == "" then hash else Fnv1a64(Fold(hash, Utf8(id[0])), id[1..])
  }

  function HexChar(n: nat): (c: char)
    requires n < 16
    ensures IdChar(c)
  {
    "0123456789abcdef"[n]
  }

  function Hex(n: nat, digits: nat): (s: string)
    ensures |s| == digits && forall k :: 0 <= k < |s| ==> IdChar(s[k])
    decreases digits
  {
    if digits == 0 then "" else Hex(n / 16, digits - 1) + [HexChar(n % 16)]
  }

  function HashSuffix(id: string): (s: string)
    ensures |s| == 16 && forall k :: 0 <= k < |s| ==> IdChar(s[k])
  {
    Hex(Fnv1a64(0xcbf2_9ce4_8422_2325, id) as nat, 16)
  }

  // ---------------------------------------------------------------- the rewrite

  function Sanitized(id: string): (s: string)
    ensures |s| == |id| && forall k :: 0 <= k < |s| ==> IdChar(s[k])
    decreases |id|
  {
    if id == "" then "" else [if IdChar(id[0]) then id[0] else '_'] + Sanitized(id[1..])
  }

  function Prefix(s: string, n: nat): string {
    if |s| <= n then s else s[..n]
  }

  // `None` when the id is already valid.
  function Rewrite(id: string): Option<string> {
    if ValidId(id) then None
    else Some(Prefix(Sanitized(id), REWRITE_PREFIX_LEN) + "_" + HashSuffix(id))
  }

  function Rewritten(id: string): string {
    Rewrite(id).GetOr(id)
  }

  lemma {:induction false} JoinedIsValid(prefix: string, suffix: string)
    requires |prefix| <= REWRITE_PREFIX_LEN && |suffix| == 16
    requires forall k :: 0 <= k < |prefix| ==> IdChar(prefix[k])
    requires forall k :: 0 <= k < |suffix| ==> IdChar(suffix[k])
    ensures ValidId(prefix + "_" + suffix)
  {
    var s := prefix + "_" + suffix;
    forall k | 0 <= k < |s|
      ensures IdChar(s[k])
    {
      assert s[k] == if k < |prefix| then prefix[k] else if k == |prefix| then '_' else suffix[k - |prefix| - 1];
    }
  }

  // Every id comes out valid, a valid one unchanged, and rewriting twice is rewriting once.
  lemma {:induction false} RewrittenIsValid(id: string)
    ensures ValidId(Rewritten(id))
    ensures ValidId(id) <==> Rewritten(id) == id
    ensures Rewrite(Rewritten(id)) == None
  {
    if !ValidId(id) {
      JoinedIsValid(Prefix(Sanitized(id), REWRITE_PREFIX_LEN), HashSuffix(id));
    }
  }
}
