/** Bytes, little-endian integers and compact lengths, and the parsed form of a transaction. */
module Wire {
  import opened Wrappers

  type byte = x: int | 0 <= x < 256
  type Bytes = seq<byte>
  type Pubkey = Bytes
  type Signature = Bytes

  const U64_LIMIT := 0x1_0000_0000_0000_0000
  const U32_LIMIT := 0x1_0000_0000

  // ---- little-endian integers ----

  function Pow256(k: nat): nat {
    if k == 0 then 1 else 256 * Pow256(k - 1)
  }

  function LE(b: Bytes): nat {
    if b == [] then 0 else b[0] + 256 * LE(b[1..])
  }

  function Pack(n: nat, k: nat): Bytes
    ensures |Pack(n, k)| == k
  {
    if k == 0 then [] else [(n % 256) as byte] + Pack(n / 256, k - 1)
  }

  /** Packing and unpacking are inverse, in both directions. */
  lemma {:induction false} UnpackPack(n: nat, k: nat)
    requires n < Pow256(k)
    ensures LE(Pack(n, k)) == n
  {
    if k > 0 {
      UnpackPack(n / 256, k - 1);
      assert Pack(n, k)[1..] == Pack(n / 256, k - 1);
    }
  }

  lemma {:induction false} PackUnpack(b: Bytes)
    ensures Pack(LE(b), |b|) == b
    ensures LE(b) < Pow256(|b|)
  {
    if b != [] {
      PackUnpack(b[1..]);
      assert LE(b) % 256 == b[0] && LE(b) / 256 == LE(b[1..]);
      assert b == [b[0]] + b[1..];
    }
  }

  lemma WidthLimits()
    ensures Pow256(4) == U32_LIMIT && Pow256(8) == U64_LIMIT
  {
    assert Pow256(4) == 256 * Pow256(3) && Pow256(3) == 256 * Pow256(2) && Pow256(2) == 256 * Pow256(1);
    assert Pow256(8) == 256 * Pow256(7) && Pow256(7) == 256 * Pow256(6);
    assert Pow256(6) == 256 * Pow256(5) && Pow256(5) == 256 * Pow256(4);
  }

  function U32(b: Bytes, off: nat): nat
    requires off + 4 <= |b|
  {
    LE(b[off..off + 4])
  }

  function U64(b: Bytes, off: nat): nat
    requires off + 8 <= |b|
  {
    LE(b[off..off + 8])
  }

  /** A signed 64-bit field in two's complement. */
  function I64(b: Bytes, off: nat): int
    requires off + 8 <= |b|
  {
    var u := U64(b, off);
    if u >= U64_LIMIT / 2 then u - U64_LIMIT else u
  }

  lemma ZeroFieldIsZeroBytes(b: Bytes, off: nat)
    requires off + 8 <= |b|
    ensures I64(b, off) == 0 <==> b[off..off + 8] == Pack(0, 8)
  {
    WidthLimits();
    PackUnpack(b[off..off + 8]);
    UnpackPack(0, 8);
  }

  // ---- hexadecimal ----

  function HexDigit(d: nat): char
    requires d < 16
  {
    if d < 10 then '0' + d as char else 'a' + (d - 10) as char
  }

  function Hex(b: Bytes): string {
    if b == [] then "" else [HexDigit(b[0] / 16), HexDigit(b[0] % 16)] + Hex(b[1..])
  }

  lemma {:induction false} HexIsInjective(a: Bytes, b: Bytes)
    requires Hex(a) == Hex(b)
    ensures a == b
  {
    if a != [] && b != [] {
      assert Hex(a)[2..] == Hex(a[1..]) && Hex(b)[2..] == Hex(b[1..]);
      assert Hex(a)[0] == Hex(b)[0] && Hex(a)[1] == Hex(b)[1];
      HexIsInjective(a[1..], b[1..]);
      assert a == [a[0]] + a[1..] && b == [b[0]] + b[1..];
    }
  }

  // ---- compact lengths ----

  /** A length in groups of seven bits, at most `groups` bytes of it: the value and its width. */
  function Compact(b: Bytes, groups: nat): Option<(nat, nat)> {
    if b == [] || groups == 0 then None
    else if b[0] < 128 then Some((b[0], 1))
    else
      match Compact(b[1..], groups - 1)
      case None => None
      case Some((v, n)) => Some((b[0] - 128 + 128 * v, n + 1))
  }

  function EncodeCompact(n: nat): Bytes {
    if n < 128 then [n] else [(n % 128 + 128) as byte] + EncodeCompact(n / 128)
  }

  lemma {:induction false} CompactRoundTrip(n: nat, rest: Bytes, groups: nat)
    requires |EncodeCompact(n)| <= groups
    ensures Compact(EncodeCompact(n) + rest, groups) == Some((n, |EncodeCompact(n)|))
  {
    if n >= 128 {
      assert (EncodeCompact(n) + rest)[1..] == EncodeCompact(n / 128) + rest;
      CompactRoundTrip(n / 128, rest, groups - 1);
    }
  }

  /** Allowing more groups never changes an answer already given. */
  lemma {:induction false} CompactExtends(b: Bytes, few: nat, many: nat)
    requires few <= many && Compact(b, few).Some?
    ensures Compact(b, many) == Compact(b, few)
    ensures Compact(b, few).value.1 <= |b|
  {
    if b[0] >= 128 {
      CompactExtends(b[1..], few - 1, many - 1);
    }
  }

  /** What is still to come, read as if `value` had been accumulated so far and the next group
      weighed `scale`. */
  function Continue(value: nat, scale: nat, used: nat, rest: Option<(nat, nat)>): Option<(nat, nat)> {
    match rest
    case None => None
    case Some((v, n)) => Some((value + scale * v, used + n))
  }

  lemma ContinueStep(value: nat, scale: nat, used: nat, b: Bytes, groups: nat)
    requires b != [] && groups > 0
    ensures b[0] >= 128 ==>
              Continue(value, scale, used, Compact(b, groups))
              == Continue(value + scale * (b[0] % 128), scale * 128, used + 1, Compact(b[1..], groups - 1))
    ensures b[0] < 128 ==>
              Continue(value, scale, used, Compact(b, groups)) == Some((value + scale * (b[0] % 128), used + 1))
  {
    if b[0] >= 128 && Compact(b[1..], groups - 1).Some? {
      var v := Compact(b[1..], groups - 1).value.0;
      var low := b[0] - 128;
      assert b[0] % 128 == low;
      assert scale * (low + 128 * v) == scale * low + scale * 128 * v;
    }
  }

  method ReadCompact(b: Bytes, groups: nat) returns (r: Option<(nat, nat)>)
    requires groups > 0
    ensures r == Compact(b, groups)
  {
    var value: nat := 0;
    var scale: nat := 1;
    var idx: nat := 0;
    while true
      invariant idx < groups && idx <= |b|
      invariant Compact(b, groups) == Continue(value, scale, idx, Compact(b[idx..], groups - idx))
      decreases groups - idx
    {
      if idx >= |b| {
        return None;
      }
      ContinueStep(value, scale, idx, b[idx..], groups - idx);
      var c := b[idx];
      assert b[idx..][1..] == b[idx + 1..];
      value := value + scale * (c % 128);
      idx := idx + 1;
      if c < 128 {
        return Some((value, idx));
      }
      scale := scale * 128;
      if idx == groups {
        return None;
      }
    }
  }

  // ---- parsed transactions ----

  datatype Instr = Instr(program: nat, accounts: seq<nat>, data: Bytes)

  datatype Message = Message(
    keys: seq<Pubkey>,
    signers: nat,
    readonlySigned: nat,
    readonlyUnsigned: nat,
    instrs: seq<Instr>)

  datatype Tx = Tx(signatures: seq<Signature>, msg: Message)

  /** An empty signature slot. */
  predicate IsEmptySlot(s: Signature) {
    |s| == 64 && forall i :: 0 <= i < 64 ==> s[i] == 0
  }

  /** The first byte of the message, after the signature array. */
  function MessageStart(raw: Bytes, groups: nat): Option<byte> {
    match Compact(raw, groups)
    case None => None
    case Some((count, used)) => if used + 64 * count < |raw| then Some(raw[used + 64 * count]) else None
  }

  /** A legacy message starts with a plain signer count, a versioned one with the high bit set. */
  predicate IsLegacy(raw: Bytes, groups: nat) {
    MessageStart(raw, groups).Some? && MessageStart(raw, groups).value < 128
  }

  const DRAFT_GROUPS := 3
  const CLAIM_GROUPS := 4

  /** The two verifiers read the same prefix with different length limits; whatever the stricter one
      takes for a legacy transaction, the other does too. */
  lemma VerifiersAgreeOnLegacy(raw: Bytes)
    requires MessageStart(raw, DRAFT_GROUPS).Some?
    ensures MessageStart(raw, CLAIM_GROUPS) == MessageStart(raw, DRAFT_GROUPS)
    ensures IsLegacy(raw, DRAFT_GROUPS) <==> IsLegacy(raw, CLAIM_GROUPS)
  {
    CompactExtends(raw, DRAFT_GROUPS, CLAIM_GROUPS);
  }

  /** A transaction laid out as count, signatures, message is legacy exactly when its message starts
      with a byte below 128. */
  lemma LayoutDecides(count: nat, signatures: Bytes, message: Bytes)
    requires |EncodeCompact(count)| <= DRAFT_GROUPS && |signatures| == 64 * count && message != []
    ensures IsLegacy(EncodeCompact(count) + signatures + message, DRAFT_GROUPS) <==> message[0] < 128
  {
    var raw := EncodeCompact(count) + signatures + message;
    assert raw == EncodeCompact(count) + (signatures + message);
    CompactRoundTrip(count, signatures + message, DRAFT_GROUPS);
  }
}
