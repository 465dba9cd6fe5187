/** The draft verifier (src/xete_mcp/draft.py `_verify_draft` and the scans it is made of). The scans
    are loops over the instructions; each is proved against the value it stands for. */
module Draft {
  import opened Wrappers
  import opened Wire
  import opened Runtime

  const HONEST_FEE := 5_060

  /** What the caller expects, none of it read from the draft. An unreadable salt is None. */
  datatype Expect = Expect(
    recipient: Pubkey,
    salt: Option<Bytes>,
    amount: int,
    depositor: Pubkey,
    escrowId: Option<string>,
    nonce: Option<Pubkey>,
    maxFee: int)

  // ---- the shape ----

  datatype Kind = AdvanceNonceIx | CbLimitIx | CbPriceIx | DepositIx | OtherIx

  predicate IsDepositData(data: Bytes) {
    |data| == DEPOSIT_LEN && data[0] == 0
  }

  function KindOf(env: Env, msg: Message, ix: Instr): Kind {
    if ix.program >= |msg.keys| then OtherIx
    else
      var program := msg.keys[ix.program];
      if program == env.budget then
        if |ix.data| > 0 && ix.data[0] == CB_LIMIT then CbLimitIx
        else if |ix.data| > 0 && ix.data[0] == CB_PRICE then CbPriceIx
        else OtherIx
      else if program == env.system then
        if |ix.data| >= 4 && U32(ix.data, 0) == SYS_ADVANCE_NONCE then AdvanceNonceIx else OtherIx
      else if program == env.settlement then
        if IsDepositData(ix.data) then DepositIx else OtherIx
      else OtherIx
  }

  function Kinds(env: Env, msg: Message): seq<Kind> {
    seq(|msg.instrs|, i requires 0 <= i < |msg.instrs| => KindOf(env, msg, msg.instrs[i]))
  }

  function NonceNamed(msg: Message, ix: Instr): Option<Pubkey> {
    if |ix.accounts| > 0 && ix.accounts[0] < |msg.keys| then Some(msg.keys[ix.accounts[0]]) else None
  }

  /** The nonce accounts named by the first `n` instructions. */
  function NoncesNamed(env: Env, msg: Message, n: nat): seq<Option<Pubkey>>
    requires n <= |msg.instrs|
  {
    if n == 0 then []
    else NoncesNamed(env, msg, n - 1)
         + (if KindOf(env, msg, msg.instrs[n - 1]) == AdvanceNonceIx then [NonceNamed(msg, msg.instrs[n - 1])] else [])
  }

  function Want(e: Expect): seq<Kind> {
    (if e.nonce.Some? then [AdvanceNonceIx] else []) + [CbLimitIx, CbPriceIx, DepositIx]
  }

  method InstructionShape(env: Env, msg: Message) returns (kinds: seq<Kind>, nonces: seq<Option<Pubkey>>)
    ensures kinds == Kinds(env, msg)
    ensures nonces == NoncesNamed(env, msg, |msg.instrs|)
  {
    kinds, nonces := [], [];
    for n := 0 to |msg.instrs|
      invariant |kinds| == n && forall i :: 0 <= i < n ==> kinds[i] == KindOf(env, msg, msg.instrs[i])
      invariant nonces == NoncesNamed(env, msg, n)
    {
      var ix := msg.instrs[n];
      var kind := KindOf(env, msg, ix);
      kinds := kinds + [kind];
      if kind == AdvanceNonceIx {
        nonces := nonces + [NonceNamed(msg, ix)];
      }
    }
  }

  // ---- lamport movements ----

  datatype Movement = Movement(lamports: Option<nat>, to: Option<Pubkey>, deposit: bool)

  const UNDECODED := Movement(None, None, false)

  function At(accts: seq<Pubkey>, i: nat): Option<Pubkey> {
    if i < |accts| then Some(accts[i]) else None
  }

  /** One system instruction as a movement; None when it cannot be decoded in full. */
  function SystemMovement(data: Bytes, accts: seq<Pubkey>): Option<Movement> {
    if |data| < 4 then None
    else
      var tag := U32(data, 0);
      if tag == SYS_ADVANCE_NONCE then Some(Movement(Some(0), At(accts, 0), false))
      else if tag == SYS_TRANSFER || tag == 0 || tag == 5 then
        if |data| >= 12 then Some(Movement(Some(U64(data, 4)), At(accts, 1), false)) else None
      else if tag == 11 then
        if |data| >= 12 then Some(Movement(Some(U64(data, 4)), At(accts, 2), false)) else None
      else if tag == 3 then
        if |data| < 44 then None
        else
          var seed := U64(data, 36);
          if seed > |data| || 44 + seed + 8 > |data| then None
          else Some(Movement(Some(U64(data, 44 + seed)), At(accts, 1), false))
      else None
  }

  /** What one instruction moves, if it is listed at all, and whether it was understood. */
  function MovementOf(env: Env, msg: Message, ix: Instr): (Option<Movement>, bool) {
    if ix.program >= |msg.keys| then (None, false)
    else if exists i :: i in ix.accounts && i >= |msg.keys| then (Some(UNDECODED), false)
    else
      var program := msg.keys[ix.program];
      if program == env.budget then (None, true)
      else if program == env.system then
        match SystemMovement(ix.data, Accounts(msg, ix))
        case Some(m) => (Some(m), true)
        case None => (Some(UNDECODED), false)
      else if program == env.settlement && IsDepositData(ix.data) then
        (Some(Movement(Some(U64(ix.data, 33)), Some(EscrowPda(env, ix.data[1..33])), true)), true)
      else (Some(UNDECODED), false)
  }

  datatype Seen = Seen(movements: seq<Movement>, undecodable: nat)

  function Listed(env: Env, msg: Message, n: nat): Seen
    requires n <= |msg.instrs|
  {
    if n == 0 then Seen([], 0)
    else
      var before := Listed(env, msg, n - 1);
      var (m, understood) := MovementOf(env, msg, msg.instrs[n - 1]);
      Seen(before.movements + (if m.Some? then [m.value] else []), before.undecodable + (if understood then 0 else 1))
  }

  method LamportMovements(env: Env, msg: Message) returns (movements: seq<Movement>, undecodable: nat)
    ensures Seen(movements, undecodable) == Listed(env, msg, |msg.instrs|)
  {
    movements, undecodable := [], 0;
    for n := 0 to |msg.instrs|
      invariant Seen(movements, undecodable) == Listed(env, msg, n)
    {
      var (m, understood) := MovementOf(env, msg, msg.instrs[n]);
      if m.Some? {
        movements := movements + [m.value];
      }
      if !understood {
        undecodable := undecodable + 1;
      }
    }
  }

  function TotalOut(ms: seq<Movement>): nat {
    if ms == [] then 0
    else TotalOut(ms[..|ms| - 1]) + (match ms[|ms| - 1].lamports case Some(l) => l case None => 0)
  }

  function DepositsIn(ms: seq<Movement>): nat {
    if ms == [] then 0 else DepositsIn(ms[..|ms| - 1]) + (if ms[|ms| - 1].deposit then 1 else 0)
  }

  function Destinations(ms: seq<Movement>): set<Option<Pubkey>> {
    if ms == [] then {}
    else
      var last := ms[|ms| - 1];
      Destinations(ms[..|ms| - 1]) + (if last.lamports.Some? && last.lamports.value > 0 then {last.to} else {})
  }

  // ---- the fee ----

  datatype FeeScan = FeeScan(limit: Option<nat>, price: nat, extra: nat, unknown: nat)

  function Larger(a: Option<nat>, b: nat): nat {
    if a.Some? && a.value > b then a.value else b
  }

  function FeeStep(env: Env, msg: Message, f: FeeScan, ix: Instr): FeeScan {
    if !IsBudget(env, msg, ix) then f
    else
      var d := ix.data;
      if |d| == 0 then f.(unknown := f.unknown + 1)
      else if d[0] == CB_LIMIT && |d| >= 5 then f.(limit := Some(Larger(f.limit, U32(d, 1))))
      else if d[0] == CB_PRICE && |d| >= 9 then f.(price := Larger(Some(f.price), U64(d, 1)))
      else if d[0] == CB_REQUEST_UNITS && |d| >= 9 then
        f.(limit := Some(Larger(f.limit, U32(d, 1))), extra := f.extra + U32(d, 5))
      else if (d[0] == CB_HEAP || d[0] == CB_DATA_SIZE) && |d| >= 5 then f
      else f.(unknown := f.unknown + 1)
  }

  function FeeScanned(env: Env, msg: Message, n: nat): FeeScan
    requires n <= |msg.instrs|
  {
    if n == 0 then FeeScan(None, 0, 0, 0) else FeeStep(env, msg, FeeScanned(env, msg, n - 1), msg.instrs[n - 1])
  }

  /** Negate, floor-divide, negate: the rounding-up division as it is written. */
  function CeilDiv(x: nat): int {
    -((-(x as int)) / MICRO)
  }

  function QuotedFee(msg: Message, f: FeeScan): int {
    var units := if f.limit.Some? then Min(f.limit.value, MAX_CU_LIMIT)
                 else Min(DEFAULT_CU_PER_IX * |msg.instrs|, MAX_CU_LIMIT);
    LAMPORTS_PER_SIGNATURE * msg.signers + CeilDiv(units * f.price) + f.extra
  }

  method TransactionFee(env: Env, msg: Message) returns (fee: int, unknown: nat)
    ensures fee == QuotedFee(msg, FeeScanned(env, msg, |msg.instrs|))
    ensures unknown == FeeScanned(env, msg, |msg.instrs|).unknown
  {
    var f := FeeScan(None, 0, 0, 0);
    for n := 0 to |msg.instrs|
      invariant f == FeeScanned(env, msg, n)
    {
      f := FeeStep(env, msg, f, msg.instrs[n]);
    }
    return QuotedFee(msg, f), f.unknown;
  }

  /** The written division is the least number of lamports that covers the micro-lamports. */
  lemma CeilDivIsCovering(x: nat)
    ensures CeilDiv(x) == Covering(x)
  {
    var q := (-(x as int)) / MICRO;
    assert q * MICRO <= -(x as int) < (q + 1) * MICRO;
  }

  // ---- the deposit instruction ----

  /** The first settlement deposit at or after `i`. */
  function FindDeposit(env: Env, msg: Message, i: nat): (r: Option<nat>)
    requires i <= |msg.instrs|
    ensures r.Some? ==> i <= r.value < |msg.instrs| && KindOf(env, msg, msg.instrs[r.value]) == DepositIx
    decreases |msg.instrs| - i
  {
    if i == |msg.instrs| then None
    else if KindOf(env, msg, msg.instrs[i]) == DepositIx then Some(i)
    else FindDeposit(env, msg, i + 1)
  }

  // ---- the verdict ----

  predicate KnownProgram(env: Env, k: Pubkey) {
    k == env.settlement || k == env.budget || k == env.system
  }

  predicate OnlyKnownPrograms(env: Env, msg: Message) {
    forall ix :: ix in msg.instrs && ix.program < |msg.keys| ==> KnownProgram(env, msg.keys[ix.program])
  }

  predicate Unsigned(tx: Tx) {
    forall s :: s in tx.signatures ==> IsEmptySlot(s)
  }

  predicate HeaderAsExpected(tx: Tx, e: Expect) {
    && Unsigned(tx)
    && tx.msg.signers == 1
    && |tx.msg.keys| > 0 && tx.msg.keys[0] == e.depositor
  }

  predicate ShapeAsExpected(env: Env, msg: Message, e: Expect) {
    && Kinds(env, msg) == Want(e)
    && (e.nonce.Some? ==> NoncesNamed(env, msg, |msg.instrs|) == [e.nonce])
  }

  /** The commitment in the transaction is the one the expected recipient and salt hash to. */
  predicate CommitmentMatches(env: Env, data: Bytes, e: Expect)
    requires |data| == DEPOSIT_LEN
  {
    match e.salt
    case None => false
    case Some(salt) => env.sha256(e.recipient + salt) == data[41..73]
  }

  predicate FieldsAsExpected(env: Env, data: Bytes, e: Expect)
    requires |data| == DEPOSIT_LEN
  {
    && U64(data, 33) == e.amount
    && U64(data, 33) >= RENT_EXEMPT_LAMPORTS
    && (e.escrowId.Some? ==> e.escrowId.value == Hex(data[1..33]))
    && CommitmentMatches(env, data, e)
    && I64(data, 73) == 0
  }

  predicate AccountsAsExpected(env: Env, accts: seq<Pubkey>, escrow: Pubkey, e: Expect) {
    && |accts| > 1 && accts[1] == escrow
    && accts[0] == e.depositor
    && |accts| > 2 && accts[2] == env.system
  }

  predicate ArithmeticAsExpected(env: Env, msg: Message, escrow: Pubkey, e: Expect) {
    && OnlyKnownPrograms(env, msg)
    && Listed(env, msg, |msg.instrs|).undecodable + FeeScanned(env, msg, |msg.instrs|).unknown == 0
    && DepositsIn(Listed(env, msg, |msg.instrs|).movements) == 1
    && TotalOut(Listed(env, msg, |msg.instrs|).movements) == e.amount
    && Destinations(Listed(env, msg, |msg.instrs|).movements) == {Some(escrow)}
  }

  predicate AcceptsAround(env: Env, tx: Tx, e: Expect, ix: Instr)
    requires |ix.data| == DEPOSIT_LEN
  {
    && HeaderAsExpected(tx, e)
    && InRange(tx.msg, ix)
    && ShapeAsExpected(env, tx.msg, e)
    && FieldsAsExpected(env, ix.data, e)
    && AccountsAsExpected(env, Accounts(tx.msg, ix), EscrowPda(env, ix.data[1..33]), e)
    && ArithmeticAsExpected(env, tx.msg, EscrowPda(env, ix.data[1..33]), e)
    && QuotedFee(tx.msg, FeeScanned(env, tx.msg, |tx.msg.instrs|)) <= e.maxFee
  }

  /** Everything the verifier demands of a parsed legacy transaction. */
  predicate Accepts(env: Env, tx: Tx, e: Expect) {
    match FindDeposit(env, tx.msg, 0)
    case None => false
    case Some(d) => AcceptsAround(env, tx, e, tx.msg.instrs[d])
  }

  datatype Check = Check(name: string, ok: bool)

  datatype VerifyResult = VerifyResult(ok: bool, checks: seq<Check>, totalOut: nat, fee: int, escrowId: string)

  predicate AllOk(checks: seq<Check>) {
    forall c :: c in checks ==> c.ok
  }

  const REFUSED := VerifyResult(false, [], 0, 0, "")

  /** `Transaction.from_bytes`, about which nothing is assumed. */
  type Parser = Bytes -> Option<Tx>

  function EnvelopeChecks(tx: Tx, e: Expect, kinds: seq<Kind>, nonces: seq<Option<Pubkey>>): (r: seq<Check>)
    ensures AllOk(r) <==> HeaderAsExpected(tx, e) && kinds == Want(e) && (e.nonce.Some? ==> nonces == [e.nonce])
  {
    var r := [Check("unsigned", Unsigned(tx)),
              Check("single_signer", tx.msg.signers == 1),
              Check("fee_payer_is_depositor", |tx.msg.keys| > 0 && tx.msg.keys[0] == e.depositor),
              Check("instruction_shape", kinds == Want(e)),
              Check("nonce_account", e.nonce.Some? ==> nonces == [e.nonce])];
    assert r[0].ok && r[1].ok && r[2].ok && r[3].ok && r[4].ok <==> AllOk(r);
    r
  }

  function FieldChecks(env: Env, data: Bytes, e: Expect): (r: seq<Check>)
    requires |data| == DEPOSIT_LEN
    ensures AllOk(r) <==> FieldsAsExpected(env, data, e)
  {
    var r := [Check("amount", U64(data, 33) == e.amount),
              Check("amount_covers_rent", U64(data, 33) >= RENT_EXEMPT_LAMPORTS),
              Check("escrow_id", e.escrowId.Some? ==> e.escrowId.value == Hex(data[1..33])),
              Check("recipient_commitment", CommitmentMatches(env, data, e)),
              Check("unlock_is_immediate", I64(data, 73) == 0)];
    assert r[0].ok && r[1].ok && r[2].ok && r[3].ok && r[4].ok <==> AllOk(r);
    r
  }

  function AccountChecks(env: Env, accts: seq<Pubkey>, escrow: Pubkey, e: Expect): (r: seq<Check>)
    ensures AllOk(r) <==> AccountsAsExpected(env, accts, escrow, e)
  {
    var r := [Check("escrow_pda", |accts| > 1 && accts[1] == escrow),
              Check("depositor_signs", |accts| > 0 && accts[0] == e.depositor),
              Check("system_program_account", |accts| > 2 && accts[2] == env.system)];
    assert r[0].ok && r[1].ok && r[2].ok <==> AllOk(r);
    r
  }

  function ArithmeticChecks(env: Env, msg: Message, seen: Seen, unknown: nat, fee: int, escrow: Pubkey, e: Expect)
    : (r: seq<Check>)
    ensures AllOk(r) <==>
              && OnlyKnownPrograms(env, msg) && seen.undecodable + unknown == 0
              && DepositsIn(seen.movements) == 1 && TotalOut(seen.movements) == e.amount
              && Destinations(seen.movements) == {Some(escrow)} && fee <= e.maxFee
  {
    var decoded := seen.undecodable + unknown == 0;
    var r := [Check("no_unexpected_programs", OnlyKnownPrograms(env, msg)),
              Check("every_instruction_decoded", decoded),
              Check("exactly_one_deposit", DepositsIn(seen.movements) == 1),
              Check("total_lamport_movement", TotalOut(seen.movements) == e.amount && decoded),
              Check("destinations", Destinations(seen.movements) == {Some(escrow)}),
              Check("max_transaction_fee", fee <= e.maxFee)];
    assert r[0].ok && r[1].ok && r[2].ok && r[3].ok && r[4].ok && r[5].ok <==> AllOk(r);
    r
  }

  lemma AllOkAppend(a: seq<Check>, b: seq<Check>)
    ensures AllOk(a + b) <==> AllOk(a) && AllOk(b)
  {
    assert forall c :: c in a + b <==> c in a || c in b;
  }

  /** Verifies raw bytes: refuses everything that is not a legacy transaction, then records one check
      after the other and passes exactly when all of them hold. */
  method VerifyDraft(env: Env, parse: Parser, raw: Bytes, e: Expect) returns (r: VerifyResult)
    ensures r.ok <==> IsLegacy(raw, DRAFT_GROUPS) && parse(raw).Some? && Accepts(env, parse(raw).value, e)
    ensures r.checks != [] ==> (r.ok <==> AllOk(r.checks))
    ensures r.ok ==>
              && r.totalOut == e.amount
              && r.fee == QuotedFee(parse(raw).value.msg, FeeScanned(env, parse(raw).value.msg, |parse(raw).value.msg.instrs|))
              && r.escrowId
                 == Hex(parse(raw).value.msg.instrs[FindDeposit(env, parse(raw).value.msg, 0).value].data[1..33])
  {
    var prefix := ReadCompact(raw, DRAFT_GROUPS);
    if prefix.None? || prefix.value.1 + 64 * prefix.value.0 >= |raw| || parse(raw).None? {
      return REFUSED;
    }
    if raw[prefix.value.1 + 64 * prefix.value.0] >= 128 {
      return RefusedAt("legacy_transaction");
    }
    r := VerifyParsed(env, parse(raw).value, e);
  }

  function RefusedAt(name: string): (r: VerifyResult)
    ensures !r.ok && !AllOk(r.checks)
  {
    assert Check(name, false) in [Check(name, false)];
    REFUSED.(checks := [Check(name, false)])
  }

  method VerifyParsed(env: Env, tx: Tx, e: Expect) returns (r: VerifyResult)
    ensures r.ok <==> Accepts(env, tx, e)
    ensures r.ok <==> AllOk(r.checks)
    ensures r.ok ==>
              && r.totalOut == e.amount && r.fee == QuotedFee(tx.msg, FeeScanned(env, tx.msg, |tx.msg.instrs|))
              && r.escrowId == Hex(tx.msg.instrs[FindDeposit(env, tx.msg, 0).value].data[1..33])
  {
    var msg := tx.msg;
    var found := FindDeposit(env, msg, 0);
    if found.None? || exists i :: i in msg.instrs[found.value].accounts && i >= |msg.keys| {
      return RefusedAt("deposit_instruction_present");
    }
    var ix := msg.instrs[found.value];
    assert InRange(msg, ix);
    var kinds, nonces := InstructionShape(env, msg);
    var movements, undecodable := LamportMovements(env, msg);
    var fee, unknown := TransactionFee(env, msg);
    var escrow := EscrowPda(env, ix.data[1..33]);
    var envelope := EnvelopeChecks(tx, e, kinds, nonces);
    var fields := FieldChecks(env, ix.data, e);
    var accounts := AccountChecks(env, Accounts(msg, ix), escrow, e);
    var arithmetic := ArithmeticChecks(env, msg, Seen(movements, undecodable), unknown, fee, escrow, e);
    AllOkAppend(envelope, fields);
    AllOkAppend(envelope + fields, accounts);
    AllOkAppend(envelope + fields + accounts, arithmetic);
    var checks := envelope + fields + accounts + arithmetic;
    r := VerifyResult(AllOk(checks), checks, TotalOut(movements), fee, Hex(ix.data[1..33]));
  }
}
