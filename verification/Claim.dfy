/** The claim verifier (src/xete_mcp/txguard.py): what it takes for a server-built name claim to be
    signed, and what the spend limits are charged for it. */
module Claim {
  import opened Wrappers
  import opened Wire
  import opened Runtime

  const DISCRIMINATOR: byte := 2
  const MAX_NAME := 32
  const MAX_KEYS := 32
  const MAX_INSTRUCTIONS := 8
  const MAX_DATA := 512

  /** What the caller knows before it talks to the server. `name` is the canonical spelling as bytes. */
  datatype Expect = Expect(
    payer: Pubkey,
    name: Bytes,
    quoted: int,
    tolerance: int,
    recordKey: Option<Bytes>,
    treasury: Option<Pubkey>,
    blockhashLive: Option<bool>,
    feeCap: nat)

  predicate NameByte(b: byte) {
    97 <= b <= 122 || 48 <= b <= 57 || b == 95
  }

  predicate Registrable(name: Bytes) {
    1 <= |name| <= MAX_NAME && forall i :: 0 <= i < |name| ==> NameByte(name[i])
  }

  /** The names that can be registered: one to 32 small letters, digits or underscores. */
  lemma RegistrableIff(name: Bytes)
    ensures Registrable(name) <==>
              && 1 <= |name| <= 32
              && forall i :: 0 <= i < |name| ==>
                   var c := name[i] as char; 'a' <= c <= 'z' || '0' <= c <= '9' || c == '_'
  {
  }

  // ---- the claim instruction ----

  function EncodeClaim(name: Bytes, key: Bytes, price: nat): Bytes
    requires |name| < 256
  {
    [DISCRIMINATOR, |name| as byte] + name + key + Pack(price, 8)
  }

  /** The record key of claim data that passes every check in turn, or None. */
  function DecodeClaim(data: Bytes, e: Expect): Option<Bytes> {
    if |data| == 0 || data[0] != DISCRIMINATOR || |data| < 2 then None
    else
      var n: nat := data[1];
      if n < 1 || n > MAX_NAME || |data| != 42 + n then None
      else if data[2..2 + n] != e.name then None
      else
        var key := data[2 + n..34 + n];
        if e.recordKey.Some? && key != e.recordKey.value then None
        else if U64(data, |data| - 8) != e.quoted then None
        else Some(key)
  }

  lemma EncodedFields(name: Bytes, key: Bytes, price: nat)
    requires |name| < 256 && |key| == 32
    ensures var d, n := EncodeClaim(name, key, price), |name|;
            && |d| == 42 + n && d[0] == DISCRIMINATOR && d[1] == n
            && d[2..2 + n] == name && d[2 + n..34 + n] == key && d[34 + n..42 + n] == Pack(price, 8)
  {
    hide Pack;
  }

  /** Claim data is accepted exactly when it is the encoding of the canonical name, some 32-byte
      record key and the quoted price; with the key pinned that is a single byte string. */
  lemma DecodeIsExact(data: Bytes, e: Expect)
    requires Registrable(e.name)
    ensures DecodeClaim(data, e).Some? <==>
              && 0 <= e.quoted < U64_LIMIT
              && exists key: Bytes :: |key| == 32 && (e.recordKey.Some? ==> key == e.recordKey.value)
                                      && data == EncodeClaim(e.name, key, e.quoted)
    ensures DecodeClaim(data, e).Some? ==>
              && |DecodeClaim(data, e).value| == 32 && 0 <= e.quoted
              && data == EncodeClaim(e.name, DecodeClaim(data, e).value, e.quoted)
  {
    WidthLimits();
    if DecodeClaim(data, e).Some? {
      DecodedIsEncoded(data, e);
    }
    forall key: Bytes | |key| == 32 && (e.recordKey.Some? ==> key == e.recordKey.value)
                        && 0 <= e.quoted < U64_LIMIT && data == EncodeClaim(e.name, key, e.quoted)
      ensures DecodeClaim(data, e).Some?
    {
      EncodedFields(e.name, key, e.quoted);
      UnpackPack(e.quoted, 8);
    }
  }

  lemma DecodedIsEncoded(data: Bytes, e: Expect)
    requires DecodeClaim(data, e).Some?
    ensures |e.name| <= MAX_NAME && |DecodeClaim(data, e).value| == 32 && 0 <= e.quoted < U64_LIMIT
    ensures e.recordKey.Some? ==> DecodeClaim(data, e).value == e.recordKey.value
    ensures data == EncodeClaim(e.name, DecodeClaim(data, e).value, e.quoted)
  {
    var n: nat := data[1];
    WidthLimits();
    PackUnpack(data[34 + n..42 + n]);
    hide Pack, LE;
    assert data == data[0..2] + data[2..2 + n] + data[2 + n..34 + n] + data[34 + n..42 + n];
    assert data[0..2] == [DISCRIMINATOR, n as byte];
  }

  // ---- accounts ----

  predicate IsWritable(msg: Message, index: nat) {
    if index < msg.signers then index < msg.signers - msg.readonlySigned
    else index < |msg.keys| - msg.readonlyUnsigned
  }

  /** Every account of the claim sits in the slot of its role. */
  predicate AccountsInPlace(env: Env, msg: Message, ix: Instr, e: Expect)
    requires InRange(msg, ix)
  {
    && |ix.accounts| == 6
    && Accounts(msg, ix)[0] == e.payer && ix.accounts[0] == 0 && IsWritable(msg, 0)
    && ix.accounts[1] < msg.signers
    && Accounts(msg, ix)[2] == AliasPda(env, e.name) && IsWritable(msg, ix.accounts[2])
    && Accounts(msg, ix)[3] == ConfigPda(env)
    && (e.treasury.Some? ==> Accounts(msg, ix)[4] == e.treasury.value)
    && Accounts(msg, ix)[5] == env.system
  }

  // ---- the scan ----

  datatype Scan = Scan(
    claims: nat,
    key: Bytes,
    payee: Pubkey,
    limit: Option<nat>,
    micro: nat,
    others: nat,
    tags: set<byte>)

  const SCAN_START := Scan(0, [], [], None, 0, 0, {})

  /** One compute-budget instruction: no accounts, a new operation, and exactly its own length. */
  function ScanBudget(s: Scan, ix: Instr): Option<Scan> {
    var d := ix.data;
    if |ix.accounts| > 0 || |d| == 0 || d[0] in s.tags then None
    else
      var next := s.(tags := s.tags + {d[0]});
      if d[0] == CB_LIMIT && |d| == 5 then Some(next.(limit := Some(U32(d, 1))))
      else if d[0] == CB_PRICE && |d| == 9 then Some(next.(micro := U64(d, 1)))
      else if (d[0] == CB_HEAP || d[0] == CB_DATA_SIZE) && |d| == 5 then Some(next)
      else None
  }

  function ScanStep(env: Env, msg: Message, e: Expect, s: Scan, ix: Instr): Option<Scan> {
    if !InRange(msg, ix) || |ix.data| > MAX_DATA then None
    else if msg.keys[ix.program] == env.registry then
      if s.claims > 0 || DecodeClaim(ix.data, e).None? || !AccountsInPlace(env, msg, ix, e) then None
      else
        Some(s.(claims := 1, others := s.others + 1, key := DecodeClaim(ix.data, e).value, payee := Accounts(msg, ix)[4]))
    else if msg.keys[ix.program] == env.budget then ScanBudget(s, ix)
    else None
  }

  function Scanned(env: Env, msg: Message, e: Expect, n: nat): Option<Scan>
    requires n <= |msg.instrs|
  {
    if n == 0 then Some(SCAN_START)
    else
      match Scanned(env, msg, e, n - 1)
      case None => None
      case Some(s) => ScanStep(env, msg, e, s, msg.instrs[n - 1])
  }

  datatype Inspection = Inspection(
    payer: Pubkey,
    name: Bytes,
    price: int,
    key: Bytes,
    payee: Pubkey,
    treasury: Option<Pubkey>,
    priorityFee: nat,
    worstFee: nat,
    staticDebit: int,
    ceiling: int,
    digest: Bytes)

  function Larger(a: nat, b: nat): nat {
    if a > b then a else b
  }

  function AuthorisedUnits(s: Scan): nat {
    if s.limit.Some? then s.limit.value else Min(DEFAULT_CU_PER_IX * Larger(s.others, 1), MAX_CU_LIMIT)
  }

  datatype Rejection =
    | Unregistrable | Unreadable | Versioned | OutOfBounds | WrongSigners | BadInstruction
    | NoClaim | PriorityFeeTooHigh | OverCeiling | StaleBlockhash

  type Parser = Bytes -> Option<Tx>

  function CountKey(keys: seq<Pubkey>, k: Pubkey): nat {
    if keys == [] then 0 else CountKey(keys[..|keys| - 1], k) + (if keys[|keys| - 1] == k then 1 else 0)
  }

  /** Who signs: us once and first with an empty slot, at most one co-signer, who has signed. */
  predicate SignersAsExpected(tx: Tx, e: Expect) {
    && |tx.msg.keys| > 0 && tx.msg.keys[0] == e.payer && CountKey(tx.msg.keys, e.payer) == 1
    && 1 <= tx.msg.signers <= 2 && |tx.signatures| >= tx.msg.signers
    && IsEmptySlot(tx.signatures[0])
    && (tx.msg.signers == 2 ==> !IsEmptySlot(tx.signatures[1]))
  }

  predicate Bounded(msg: Message) {
    |msg.keys| <= MAX_KEYS && 0 < |msg.instrs| <= MAX_INSTRUCTIONS
  }

  /** The verdict on a parsed transaction, check by check. */
  function Inspect(env: Env, digest: Message -> Bytes, tx: Tx, e: Expect): Result<Inspection, Rejection> {
    if !Bounded(tx.msg) then Failure(OutOfBounds)
    else if !SignersAsExpected(tx, e) then Failure(WrongSigners)
    else
      match Scanned(env, tx.msg, e, |tx.msg.instrs|)
      case None => Failure(BadInstruction)
      case Some(s) => Conclude(tx.msg, digest, e, s)
  }

  function Conclude(msg: Message, digest: Message -> Bytes, e: Expect, s: Scan): Result<Inspection, Rejection> {
    var priority := PriorityFee(AuthorisedUnits(s), s.micro);
    var fee := LAMPORTS_PER_SIGNATURE * msg.signers + priority;
    if s.claims != 1 then Failure(NoClaim)
    else if priority > e.feeCap then Failure(PriorityFeeTooHigh)
    else if e.quoted + fee > e.quoted + e.tolerance then Failure(OverCeiling)
    else if e.blockhashLive == Some(false) then Failure(StaleBlockhash)
    else
      Success(Inspection(e.payer, e.name, e.quoted, s.key, s.payee, e.treasury, priority, fee, e.quoted + fee,
                         e.quoted + e.tolerance, digest(msg)))
  }

  /** The whole inspection: canonical name first, then the raw framing, then a loop over the
      instructions that stops at the first one it cannot place. */
  method InspectAliasClaim(env: Env, parse: Parser, digest: Message -> Bytes, raw: Bytes, e: Expect)
    returns (r: Result<Inspection, Rejection>)
    ensures r.Success? <==>
              && Registrable(e.name) && IsLegacy(raw, CLAIM_GROUPS) && parse(raw).Some?
              && Inspect(env, digest, parse(raw).value, e).Success?
    ensures r.Success? ==> r == Inspect(env, digest, parse(raw).value, e)
  {
    if !Registrable(e.name) {
      return Failure(Unregistrable);
    }
    var prefix := ReadCompact(raw, CLAIM_GROUPS);
    if prefix.None? || prefix.value.1 + 64 * prefix.value.0 >= |raw| {
      return Failure(Unreadable);
    }
    if raw[prefix.value.1 + 64 * prefix.value.0] >= 128 {
      return Failure(Versioned);
    }
    if parse(raw).None? {
      return Failure(Unreadable);
    }
    var tx := parse(raw).value;
    var msg := tx.msg;
    if !Bounded(msg) {
      return Failure(OutOfBounds);
    }
    if !SignersAsExpected(tx, e) {
      return Failure(WrongSigners);
    }
    var s := SCAN_START;
    for position := 0 to |msg.instrs|
      invariant Scanned(env, msg, e, position) == Some(s)
    {
      var next := ScanStep(env, msg, e, s, msg.instrs[position]);
      assert Scanned(env, msg, e, position + 1) == next;
      if next.None? {
        StaysNone(env, msg, e, position + 1, |msg.instrs|);
        return Failure(BadInstruction);
      }
      s := next.value;
    }
    r := Conclude(msg, digest, e, s);
  }

  lemma {:induction false} StaysNone(env: Env, msg: Message, e: Expect, i: nat, n: nat)
    requires i <= n <= |msg.instrs| && Scanned(env, msg, e, i).None?
    ensures Scanned(env, msg, e, n).None?
  {
    if i < n {
      StaysNone(env, msg, e, i, n - 1);
    }
  }

  // ---- what is charged ----

  datatype Simulation = Measured(debit: int) | NodeRefuses | NoAnswer

  /** The simulated debit, bounded by the ceiling. None is only possible when the operator waived
      simulation and the node gave no answer. */
  function BoundedDebit(i: Inspection, sim: Simulation, required: bool): Result<Option<int>, Rejection> {
    match sim
    case NodeRefuses => Failure(BadInstruction)
    case NoAnswer => if required then Failure(Unreadable) else Success(None)
    case Measured(d) => if d > i.ceiling then Failure(OverCeiling) else Success(Some(d))
  }

  function MaxInt(a: int, b: int): int {
    if a >= b then a else b
  }

  function SpendCharge(quoted: int, i: Inspection, simulated: Option<int>): int {
    var charge := MaxInt(MaxInt(quoted, i.staticDebit), if simulated.Some? then simulated.value else 0);
    if simulated.None? then MaxInt(charge, i.ceiling) else charge
  }

  // ---- the signature ----

  /** A transaction as the signing step holds it: the signature slots are filled in place. */
  class Signable {
    const msg: Message
    var signatures: seq<Signature>

    constructor (msg: Message, signatures: seq<Signature>)
      ensures this.msg == msg && this.signatures == signatures
    {
      this.msg := msg;
      this.signatures := signatures;
    }

    /** Fills our slot if and only if this very message was inspected for this very key. */
    method ApproveAndSign(i: Inspection, digest: Message -> Bytes, key: Pubkey, signature: Signature) returns (ok: bool)
      requires |signatures| > 0
      modifies this`signatures
      ensures ok <==> i.digest != [] && digest(msg) == i.digest && key == i.payer
      ensures signatures == if ok then old(signatures)[0 := signature] else old(signatures)
    {
      ok := i.digest != [] && digest(msg) == i.digest && key == i.payer;
      if ok {
        signatures := signatures[0 := signature];
      }
    }
  }
}
