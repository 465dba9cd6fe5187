/** The builder's half (src/xete_mcp/draft.py `draft_deposit`, src/xete_mcp/settlement.py
    `deposit_ix`) and its round trip with the verifier. */
module DraftBuild {
  import opened Wrappers
  import opened Wire
  import opened Runtime
  import opened Draft
  import DraftSound

  datatype Meta = Meta(key: Pubkey, signer: bool, writable: bool)

  datatype Ix = Ix(program: Pubkey, metas: seq<Meta>, data: Bytes)

  datatype BuildError = NotPositive | BelowRent | TooLarge | WrongAuthority | BadLength

  /** The nonce account to use, who the configuration says controls it, and who the chain says. */
  datatype NonceSetup = NonceSetup(account: Pubkey, authority: Pubkey, onChain: Pubkey)

  function DepositData(id: Bytes, amount: nat, commitment: Bytes, unlock: nat): Bytes {
    [0] + id + Pack(amount, 8) + commitment + Pack(unlock, 8)
  }

  function DepositIxOf(env: Env, depositor: Pubkey, id: Bytes, amount: int, commitment: Bytes): Result<Ix, BuildError> {
    if |id| != 32 || |commitment| != 32 then Failure(BadLength)
    else if amount <= 0 then Failure(NotPositive)
    else if amount < RENT_EXEMPT_LAMPORTS then Failure(BelowRent)
    else if amount >= U64_LIMIT then Failure(TooLarge)
    else
      Success(Ix(env.settlement,
                 [Meta(depositor, true, true), Meta(EscrowPda(env, id), false, true), Meta(env.system, false, false)],
                 DepositData(id, amount, commitment, 0)))
  }

  function LimitIx(env: Env, units: nat): Ix {
    Ix(env.budget, [], [CB_LIMIT] + Pack(units, 4))
  }

  function PriceIx(env: Env, micro: nat): Ix {
    Ix(env.budget, [], [CB_PRICE] + Pack(micro, 8))
  }

  function AdvanceIx(env: Env, recentBlockhashes: Pubkey, n: NonceSetup): Ix {
    Ix(env.system, [Meta(n.account, false, true), Meta(recentBlockhashes, false, false), Meta(n.authority, true, false)],
       Pack(SYS_ADVANCE_NONCE, 4))
  }

  /** The instructions of a draft, in order. */
  function DraftDeposit(env: Env, recentBlockhashes: Pubkey, depositor: Pubkey, recipient: Pubkey, amount: int,
                        id: Bytes, salt: Bytes, nonce: Option<NonceSetup>): Result<seq<Ix>, BuildError> {
    if amount <= 0 then Failure(NotPositive)
    else if nonce.Some? && nonce.value.onChain != nonce.value.authority then Failure(WrongAuthority)
    else
      match DepositIxOf(env, depositor, id, amount, env.sha256(recipient + salt))
      case Failure(why) => Failure(why)
      case Success(deposit) =>
        Success((if nonce.Some? then [AdvanceIx(env, recentBlockhashes, nonce.value)] else [])
                + [LimitIx(env, 60_000), PriceIx(env, 1_000), deposit])
  }

  /** When a draft can be built: a representable amount that covers the rent, fields of 32 bytes, and the
      nonce account, if one is used, controlled on chain by the wallet the configuration names. */
  lemma BuildsIff(env: Env, sysvar: Pubkey, depositor: Pubkey, recipient: Pubkey, amount: int,
                  id: Bytes, salt: Bytes, nonce: Option<NonceSetup>)
    ensures var r := DraftDeposit(env, sysvar, depositor, recipient, amount, id, salt, nonce);
            && (r.Success? <==>
                  && 1_454_640 <= amount < U64_LIMIT && |id| == 32 && |env.sha256(recipient + salt)| == 32
                  && (nonce.Some? ==> nonce.value.onChain == nonce.value.authority))
            && (r == Failure(NotPositive) <==> amount <= 0)
            && (r == Failure(WrongAuthority) <==> amount > 0 && nonce.Some? && nonce.value.onChain != nonce.value.authority)
  {
  }

  // ---- compiled form ----

  function Signing(ix: Ix): set<Pubkey> {
    set m | m in ix.metas && m.signer :: m.key
  }

  function SignerKeys(ixs: seq<Ix>, payer: Pubkey): set<Pubkey> {
    if ixs == [] then {payer} else SignerKeys(ixs[..|ixs| - 1], payer) + Signing(ixs[|ixs| - 1])
  }

  /** An instruction that resolves, through the account table, to the one that was built. */
  ghost predicate Resolves(msg: Message, c: Instr, ix: Ix) {
    && InRange(msg, c)
    && msg.keys[c.program] == ix.program
    && c.data == ix.data
    && |c.accounts| == |ix.metas|
    && forall j :: 0 <= j < |ix.metas| ==> Accounts(msg, c)[j] == ix.metas[j].key
  }

  /** Any compiled, unsigned form of these instructions: every account table that resolves to them,
      with the payer first and one signature per distinct signer. */
  ghost predicate CompiledFrom(tx: Tx, ixs: seq<Ix>, payer: Pubkey) {
    && Unsigned(tx)
    && |tx.msg.keys| > 0 && tx.msg.keys[0] == payer
    && tx.msg.signers == |SignerKeys(ixs, payer)|
    && |tx.msg.instrs| == |ixs|
    && forall i :: 0 <= i < |ixs| ==> Resolves(tx.msg, tx.msg.instrs[i], ixs[i])
  }

  /** What a recipient of that draft who knows its terms expects. */
  function MatchingExpect(depositor: Pubkey, recipient: Pubkey, amount: int, id: Bytes, salt: Bytes,
                          nonce: Option<NonceSetup>, maxFee: int): Expect {
    Expect(recipient, Some(salt), amount, depositor, Some(Hex(id)),
           if nonce.Some? then Some(nonce.value.account) else None, maxFee)
  }

  // ---- the round trip ----

  lemma DepositDataSlices(id: Bytes, amount: nat, commitment: Bytes, unlock: nat)
    requires |id| == 32 && |commitment| == 32
    ensures var d := DepositData(id, amount, commitment, unlock);
            && IsDepositData(d) && d[1..33] == id && d[33..41] == Pack(amount, 8)
            && d[41..73] == commitment && d[73..81] == Pack(unlock, 8)
  {
  }

  lemma DepositDataFields(id: Bytes, amount: nat, commitment: Bytes, unlock: nat)
    requires |id| == 32 && |commitment| == 32 && amount < U64_LIMIT && unlock < U64_LIMIT / 2
    ensures var d := DepositData(id, amount, commitment, unlock);
            && IsDepositData(d) && d[1..33] == id && U64(d, 33) == amount && d[41..73] == commitment && I64(d, 73) == unlock
  {
    WidthLimits();
    UnpackPack(amount, 8);
    UnpackPack(unlock, 8);
    DepositDataSlices(id, amount, commitment, unlock);
  }

  /** Deposit data is determined by its fields: whatever verifies equals what the builder packs. */
  lemma FieldsDetermineData(d: Bytes)
    requires IsDepositData(d) && I64(d, 73) == 0
    ensures d == DepositData(d[1..33], U64(d, 33), d[41..73], 0)
  {
    hide Pack, LE, I64;
    PackUnpack(d[33..41]);
    ZeroFieldIsZeroBytes(d, 73);
    assert Pack(U64(d, 33), 8) == d[33..41];
    assert d == [0] + d[1..33] + d[33..41] + d[41..73] + d[73..81];
  }

  /** An accepted transaction carries byte for byte the deposit the builder makes for the reported
      escrow id, the expected amount and the hash of the expected recipient and salt. */
  lemma AcceptedDataIsBuilt(env: Env, tx: Tx, e: Expect)
    requires Accepts(env, tx, e)
    ensures FindDeposit(env, tx.msg, 0).Some? && e.salt.Some? && e.amount >= 0
    ensures var d := tx.msg.instrs[FindDeposit(env, tx.msg, 0).value].data;
            |d| == DEPOSIT_LEN && d == DepositData(d[1..33], e.amount, env.sha256(e.recipient + e.salt.value), 0)
  {
    FieldsDetermineData(tx.msg.instrs[FindDeposit(env, tx.msg, 0).value].data);
  }

  lemma TaggedField(tag: byte, n: nat, k: nat)
    requires n < Pow256(k)
    ensures var d: Bytes := [tag] + Pack(n, k); |d| == k + 1 && d[0] == tag && LE(d[1..k + 1]) == n
  {
    UnpackPack(n, k);
    var d: Bytes := [tag] + Pack(n, k);
    assert d[1..k + 1] == Pack(n, k);
  }

  lemma BudgetData()
    ensures var l: Bytes := [CB_LIMIT] + Pack(60_000, 4); |l| == 5 && U32(l, 1) == 60_000
    ensures var p: Bytes := [CB_PRICE] + Pack(1_000, 8); |p| == 9 && U64(p, 1) == 1_000
  {
    WidthLimits();
    TaggedField(CB_LIMIT, 60_000, 4);
    TaggedField(CB_PRICE, 1_000, 8);
  }

  lemma AdvanceData()
    ensures |Pack(SYS_ADVANCE_NONCE, 4)| == 4 && U32(Pack(SYS_ADVANCE_NONCE, 4), 0) == SYS_ADVANCE_NONCE
  {
    WidthLimits();
    UnpackPack(SYS_ADVANCE_NONCE, 4);
    assert Pack(SYS_ADVANCE_NONCE, 4)[0..4] == Pack(SYS_ADVANCE_NONCE, 4);
  }

  lemma SignersAppend(ixs: seq<Ix>, ix: Ix, payer: Pubkey)
    ensures SignerKeys(ixs + [ix], payer) == SignerKeys(ixs, payer) + Signing(ix)
  {
    assert (ixs + [ix])[..|ixs|] == ixs;
  }

  lemma SigningOfBuilt(env: Env, sysvar: Pubkey, depositor: Pubkey, data: Bytes, escrow: Pubkey, n: NonceSetup)
    ensures Signing(LimitIx(env, 60_000)) == {} && Signing(PriceIx(env, 1_000)) == {}
    ensures Signing(Ix(env.settlement, [Meta(depositor, true, true), Meta(escrow, false, true), Meta(env.system, false, false)], data))
         == {depositor}
    ensures Signing(AdvanceIx(env, sysvar, n)) == {n.authority}
  {
    var d := [Meta(depositor, true, true), Meta(escrow, false, true), Meta(env.system, false, false)];
    assert d[0] in d;
    var a := AdvanceIx(env, sysvar, n).metas;
    assert a[2] in a;
  }

  lemma SignersOfFour(lead: seq<Ix>, l: Ix, p: Ix, d: Ix, payer: Pubkey)
    requires Signing(l) == {} && Signing(p) == {} && Signing(d) == {payer} && |lead| <= 1
    ensures SignerKeys(lead + [l, p, d], payer) == {payer} + (if lead == [] then {} else Signing(lead[0]))
  {
    SignersAppend(lead, l, payer);
    SignersAppend(lead + [l], p, payer);
    SignersAppend(lead + [l] + [p], d, payer);
    assert lead + [l] + [p] + [d] == lead + [l, p, d];
    if lead != [] {
      SignersAppend([], lead[0], payer);
      assert [] + [lead[0]] == lead;
    }
    hide Signing;
  }

  /** How many signatures a draft needs: one exactly when no second wallet controls the nonce. */
  lemma SignersOfDraft(env: Env, sysvar: Pubkey, depositor: Pubkey, recipient: Pubkey, amount: int,
                       id: Bytes, salt: Bytes, nonce: Option<NonceSetup>)
    requires DraftDeposit(env, sysvar, depositor, recipient, amount, id, salt, nonce).Success?
    ensures |SignerKeys(DraftDeposit(env, sysvar, depositor, recipient, amount, id, salt, nonce).value, depositor)|
         == if nonce.Some? && nonce.value.authority != depositor then 2 else 1
  {
    hide SignerKeys, Signing, LimitIx, PriceIx, AdvanceIx, EscrowPda, DepositData;
    var deposit := DepositIxOf(env, depositor, id, amount, env.sha256(recipient + salt)).value;
    var lead := if nonce.Some? then [AdvanceIx(env, sysvar, nonce.value)] else [];
    SigningOfBuilt(env, sysvar, depositor, deposit.data, EscrowPda(env, id),
                   if nonce.Some? then nonce.value else NonceSetup(depositor, depositor, depositor));
    var ixs := lead + [LimitIx(env, 60_000), PriceIx(env, 1_000), deposit];
    SignersOfFour(lead, LimitIx(env, 60_000), PriceIx(env, 1_000), deposit, depositor);
    assert SignerKeys(ixs, depositor) == if nonce.Some? then {depositor, nonce.value.authority} else {depositor};
  }

  /** A built instruction keeps its kind through any account table. */
  lemma KindSurvives(env: Env, msg: Message, c: Instr, ix: Ix)
    requires ProgramsDiffer(env) && Resolves(msg, c, ix)
    ensures ix == LimitIx(env, 60_000) ==> KindOf(env, msg, c) == CbLimitIx
    ensures ix == PriceIx(env, 1_000) ==> KindOf(env, msg, c) == CbPriceIx
    ensures ix.program == env.settlement && IsDepositData(ix.data) ==> KindOf(env, msg, c) == DepositIx
    ensures ix.program == env.system && ix.data == Pack(SYS_ADVANCE_NONCE, 4) ==> KindOf(env, msg, c) == AdvanceNonceIx
  {
    AdvanceData();
  }

  lemma KindsAre(env: Env, msg: Message, e: Expect)
    requires |msg.instrs| == DraftSound.Lead(e) + 3
    requires e.nonce.Some? ==> KindOf(env, msg, msg.instrs[0]) == AdvanceNonceIx
    requires KindOf(env, msg, msg.instrs[DraftSound.Lead(e)]) == CbLimitIx
    requires KindOf(env, msg, msg.instrs[DraftSound.Lead(e) + 1]) == CbPriceIx
    requires KindOf(env, msg, msg.instrs[DraftSound.Lead(e) + 2]) == DepositIx
    ensures Kinds(env, msg) == Want(e)
  {
    hide KindOf;
  }

  lemma KindsOfBuilt(env: Env, tx: Tx, e: Expect, lead: seq<Ix>, deposit: Ix)
    requires ProgramsDiffer(env) && |lead| == DraftSound.Lead(e)
    requires CompiledFrom(tx, lead + [LimitIx(env, 60_000), PriceIx(env, 1_000), deposit], e.depositor)
    requires lead != [] ==> lead[0].program == env.system && lead[0].data == Pack(SYS_ADVANCE_NONCE, 4)
    requires deposit.program == env.settlement && IsDepositData(deposit.data)
    ensures Kinds(env, tx.msg) == Want(e)
  {
    hide KindOf, LimitIx, PriceIx, Pack, SignerKeys, Unsigned, Kinds, Want, IsDepositData;
    var ixs, b, msg := lead + [LimitIx(env, 60_000), PriceIx(env, 1_000), deposit], |lead|, tx.msg;
    assert ixs[b] == LimitIx(env, 60_000) && ixs[b + 1] == PriceIx(env, 1_000) && ixs[b + 2] == deposit;
    if b > 0 {
      assert ixs[0] == lead[0];
      KindSurvives(env, msg, msg.instrs[0], ixs[0]);
    }
    KindSurvives(env, msg, msg.instrs[b], ixs[b]);
    KindSurvives(env, msg, msg.instrs[b + 1], ixs[b + 1]);
    KindSurvives(env, msg, msg.instrs[b + 2], ixs[b + 2]);
    KindsAre(env, msg, e);
  }

  lemma ShapeOfBuilt(env: Env, tx: Tx, e: Expect, lead: seq<Ix>, deposit: Ix)
    requires ProgramsDiffer(env) && |lead| == DraftSound.Lead(e)
    requires CompiledFrom(tx, lead + [LimitIx(env, 60_000), PriceIx(env, 1_000), deposit], e.depositor)
    requires lead != [] ==> lead[0].program == env.system && lead[0].data == Pack(SYS_ADVANCE_NONCE, 4)
    requires lead != [] ==> |lead[0].metas| > 0 && Some(lead[0].metas[0].key) == e.nonce
    requires deposit.program == env.settlement && IsDepositData(deposit.data)
    ensures ShapeAsExpected(env, tx.msg, e)
  {
    KindsOfBuilt(env, tx, e, lead, deposit);
    if e.nonce.Some? {
      NoncesOfShape(env, tx.msg, e);
      var ixs := lead + [LimitIx(env, 60_000), PriceIx(env, 1_000), deposit];
      assert ixs[0] == lead[0] && Resolves(tx.msg, tx.msg.instrs[0], ixs[0]);
      var c := tx.msg.instrs[0];
      assert Accounts(tx.msg, c)[0] == lead[0].metas[0].key;
      assert |c.accounts| > 0 && c.accounts[0] in c.accounts;
      assert NonceNamed(tx.msg, tx.msg.instrs[0]) == e.nonce;
    }
  }

  lemma NoncesOfShape(env: Env, msg: Message, e: Expect)
    requires Kinds(env, msg) == Want(e) && e.nonce.Some?
    ensures |msg.instrs| == 4 && NoncesNamed(env, msg, 4) == [NonceNamed(msg, msg.instrs[0])]
  {
    DraftSound.ShapeMeans(env, msg, e);
    assert NoncesNamed(env, msg, 0) == [];
    assert NoncesNamed(env, msg, 1) == [NonceNamed(msg, msg.instrs[0])];
    assert NoncesNamed(env, msg, 2) == NoncesNamed(env, msg, 1);
    assert NoncesNamed(env, msg, 3) == NoncesNamed(env, msg, 2);
    assert NoncesNamed(env, msg, 4) == NoncesNamed(env, msg, 3);
  }

  lemma CompiledShape(env: Env, sysvar: Pubkey, depositor: Pubkey, recipient: Pubkey, amount: int,
                      id: Bytes, salt: Bytes, nonce: Option<NonceSetup>, maxFee: int, tx: Tx)
    requires ProgramsDiffer(env)
    requires DraftDeposit(env, sysvar, depositor, recipient, amount, id, salt, nonce).Success?
    requires CompiledFrom(tx, DraftDeposit(env, sysvar, depositor, recipient, amount, id, salt, nonce).value, depositor)
    ensures ShapeAsExpected(env, tx.msg, MatchingExpect(depositor, recipient, amount, id, salt, nonce, maxFee))
  {
    var e := MatchingExpect(depositor, recipient, amount, id, salt, nonce, maxFee);
    var deposit := DepositIxOf(env, depositor, id, amount, env.sha256(recipient + salt)).value;
    DepositDataSlices(id, amount, env.sha256(recipient + salt), 0);
    ShapeOfBuilt(env, tx, e, if nonce.Some? then [AdvanceIx(env, sysvar, nonce.value)] else [], deposit);
  }

  lemma CompiledFee(env: Env, sysvar: Pubkey, depositor: Pubkey, recipient: Pubkey, amount: int,
                    id: Bytes, salt: Bytes, nonce: Option<NonceSetup>, maxFee: int, tx: Tx)
    requires ProgramsDiffer(env)
    requires DraftDeposit(env, sysvar, depositor, recipient, amount, id, salt, nonce).Success?
    requires CompiledFrom(tx, DraftDeposit(env, sysvar, depositor, recipient, amount, id, salt, nonce).value, depositor)
    requires tx.msg.signers == 1
    ensures QuotedFee(tx.msg, FeeScanned(env, tx.msg, |tx.msg.instrs|)) == HONEST_FEE
  {
    var ixs := DraftDeposit(env, sysvar, depositor, recipient, amount, id, salt, nonce).value;
    var e := MatchingExpect(depositor, recipient, amount, id, salt, nonce, maxFee);
    CompiledShape(env, sysvar, depositor, recipient, amount, id, salt, nonce, maxFee, tx);
    DraftSound.FeeScanOfShape(env, tx.msg, e);
    BudgetData();
    var b := DraftSound.Lead(e);
    assert Resolves(tx.msg, tx.msg.instrs[b], ixs[b]) && Resolves(tx.msg, tx.msg.instrs[b + 1], ixs[b + 1]);
    assert CeilDiv(60_000 * 1_000) == 60;
  }

  /** An expectation that fits a draft: same depositor, amount and nonce account, a recipient and salt with
      the commitment, the escrow id if one is given, and a fee bound of at least the honest fee. */
  ghost predicate FitsDraft(env: Env, depositor: Pubkey, recipient: Pubkey, amount: int, id: Bytes, salt: Bytes,
                            nonce: Option<NonceSetup>, e: Expect) {
    && e.depositor == depositor && e.amount == amount
    && e.nonce == (if nonce.Some? then Some(nonce.value.account) else None)
    && e.salt.Some? && env.sha256(e.recipient + e.salt.value) == env.sha256(recipient + salt)
    && (e.escrowId.Some? ==> e.escrowId.value == Hex(id))
    && e.maxFee >= 5_060
  }

  /** Build, then verify: every draft the builder makes, through every account table that resolves to it, and
      whatever the caller expects of it, passes the verifier's checks if and only if the expectation fits the
      draft and no wallet other than the depositor controls its nonce. */
  lemma BuildVerifyRoundTrip(env: Env, sysvar: Pubkey, depositor: Pubkey, recipient: Pubkey, amount: int,
                             id: Bytes, salt: Bytes, nonce: Option<NonceSetup>, tx: Tx, e: Expect)
    requires ProgramsDiffer(env)
    requires DraftDeposit(env, sysvar, depositor, recipient, amount, id, salt, nonce).Success?
    requires CompiledFrom(tx, DraftDeposit(env, sysvar, depositor, recipient, amount, id, salt, nonce).value, depositor)
    ensures Accepts(env, tx, e)
       <==> FitsDraft(env, depositor, recipient, amount, id, salt, nonce, e)
            && (nonce.Some? ==> nonce.value.authority == depositor)
  {
    var m := MatchingExpect(depositor, recipient, amount, id, salt, nonce, HONEST_FEE);
    SignersOfDraft(env, sysvar, depositor, recipient, amount, id, salt, nonce);
    CompiledShape(env, sysvar, depositor, recipient, amount, id, salt, nonce, HONEST_FEE, tx);
    DraftSound.DepositFound(env, tx.msg, m);
    CompiledDeposit(env, sysvar, depositor, recipient, amount, id, salt, nonce, HONEST_FEE, tx);
    CompiledInstructions(env, sysvar, depositor, recipient, amount, id, salt, nonce, HONEST_FEE, tx);
    if nonce.None? || nonce.value.authority == depositor {
      CompiledFee(env, sysvar, depositor, recipient, amount, id, salt, nonce, HONEST_FEE, tx);
      hide DraftDeposit, SignerKeys, Kinds, Want, FieldsAsExpected, AccountsAsExpected, ArithmeticAsExpected, Hex, FeeScanned,
           QuotedFee, NoncesNamed, U64, I64, EscrowPda;
      AcceptedFor(env, tx, m, e, DraftSound.Last(m));
    } else {
      hide DraftDeposit, SignerKeys, Kinds, Want, FieldsAsExpected, AccountsAsExpected, ArithmeticAsExpected, Hex, FeeScanned,
           QuotedFee, NoncesNamed, U64, I64, EscrowPda;
    }
  }

  /** What else a transaction passes for that passes for `m`, up to the fee bound. */
  lemma AcceptedFor(env: Env, tx: Tx, m: Expect, e: Expect, d: nat)
    requires FindDeposit(env, tx.msg, 0) == Some(d) && HeaderAsExpected(tx, m) && ShapeAsExpected(env, tx.msg, m)
    requires InRange(tx.msg, tx.msg.instrs[d]) && |tx.msg.instrs[d].data| == DEPOSIT_LEN
    requires m.salt.Some? && m.escrowId == Some(Hex(tx.msg.instrs[d].data[1..33]))
    requires FieldsAsExpected(env, tx.msg.instrs[d].data, m)
    requires var escrow := EscrowPda(env, tx.msg.instrs[d].data[1..33]);
             && AccountsAsExpected(env, Accounts(tx.msg, tx.msg.instrs[d]), escrow, m)
             && ArithmeticAsExpected(env, tx.msg, escrow, m)
    ensures Accepts(env, tx, e)
       <==> && e.depositor == m.depositor && e.amount == m.amount && e.nonce == m.nonce
            && e.salt.Some? && env.sha256(e.recipient + e.salt.value) == env.sha256(m.recipient + m.salt.value)
            && (e.escrowId.Some? ==> e.escrowId == m.escrowId)
            && e.maxFee >= QuotedFee(tx.msg, FeeScanned(env, tx.msg, |tx.msg.instrs|))
  {
    hide Hex, FeeScanned, QuotedFee, NoncesNamed, U64, I64, EscrowPda, Listed, OnlyKnownPrograms, Accounts, Kinds, Unsigned, InRange;
    assert Want(e) == Want(m) <==> e.nonce.Some? == m.nonce.Some? by {
      assert |Want(e)| == if e.nonce.Some? then 4 else 3;
      assert |Want(m)| == if m.nonce.Some? then 4 else 3;
    }
  }

  /** Leaving the escrow id out asks for nothing else: a draft passes without one if and only if it passes
      with some id, and that is then the id that is reported. */
  lemma IdIsOptional(env: Env, tx: Tx, e: Expect)
    ensures Accepts(env, tx, e.(escrowId := None)) <==> exists id :: Accepts(env, tx, e.(escrowId := Some(id)))
    ensures forall id :: Accepts(env, tx, e.(escrowId := Some(id))) ==>
              FindDeposit(env, tx.msg, 0).Some? && id == Hex(tx.msg.instrs[FindDeposit(env, tx.msg, 0).value].data[1..33])
  {
    var none := e.(escrowId := None);
    forall id
      ensures Accepts(env, tx, e.(escrowId := Some(id)))
         <==> && Accepts(env, tx, none)
              && id == Hex(tx.msg.instrs[FindDeposit(env, tx.msg, 0).value].data[1..33])
    {
      var some := e.(escrowId := Some(id));
      assert Want(some) == Want(none);
      hide Hex, FeeScanned, QuotedFee, NoncesNamed, U64, I64, EscrowPda, Listed, OnlyKnownPrograms, Accounts, Kinds, Unsigned,
           InRange, Want;
    }
    if Accepts(env, tx, none) {
      assert Accepts(env, tx, e.(escrowId := Some(Hex(tx.msg.instrs[FindDeposit(env, tx.msg, 0).value].data[1..33]))));
    }
  }

  lemma CompiledDeposit(env: Env, sysvar: Pubkey, depositor: Pubkey, recipient: Pubkey, amount: int,
                        id: Bytes, salt: Bytes, nonce: Option<NonceSetup>, maxFee: int, tx: Tx)
    requires ProgramsDiffer(env)
    requires DraftDeposit(env, sysvar, depositor, recipient, amount, id, salt, nonce).Success?
    requires CompiledFrom(tx, DraftDeposit(env, sysvar, depositor, recipient, amount, id, salt, nonce).value, depositor)
    ensures var e := MatchingExpect(depositor, recipient, amount, id, salt, nonce, maxFee);
            && |tx.msg.instrs| == DraftSound.Lead(e) + 3
            && var ix := tx.msg.instrs[DraftSound.Last(e)];
            && InRange(tx.msg, ix) && IsDepositData(ix.data)
            && FieldsAsExpected(env, ix.data, e)
            && AccountsAsExpected(env, Accounts(tx.msg, ix), EscrowPda(env, ix.data[1..33]), e)
            && ArithmeticAsExpected(env, tx.msg, EscrowPda(env, ix.data[1..33]), e)
  {
    var e := MatchingExpect(depositor, recipient, amount, id, salt, nonce, maxFee);
    CompiledShape(env, sysvar, depositor, recipient, amount, id, salt, nonce, maxFee, tx);
    CompiledInstructions(env, sysvar, depositor, recipient, amount, id, salt, nonce, maxFee, tx);
    hide Hex, LE, Kinds, CompiledFrom, DraftDeposit, U64, I64, ArithmeticAsExpected, Want, NoncesNamed;
    DraftSound.ShapeSubsumesArithmetic(env, tx.msg, e);
  }

  lemma {:induction false} CompiledInRange(tx: Tx, ixs: seq<Ix>, payer: Pubkey)
    requires CompiledFrom(tx, ixs, payer)
    ensures forall ix :: ix in tx.msg.instrs ==> InRange(tx.msg, ix)
  {
    hide SignerKeys, InRange;
    forall ix | ix in tx.msg.instrs ensures InRange(tx.msg, ix) {
      var i :| 0 <= i < |tx.msg.instrs| && tx.msg.instrs[i] == ix;
      assert Resolves(tx.msg, tx.msg.instrs[i], ixs[i]);
    }
  }

  lemma ResolvedAt(tx: Tx, ixs: seq<Ix>, payer: Pubkey, i: nat)
    requires CompiledFrom(tx, ixs, payer) && i < |ixs|
    ensures |tx.msg.instrs| == |ixs| && tx.msg.instrs[i].data == ixs[i].data && InRange(tx.msg, tx.msg.instrs[i])
    ensures |Accounts(tx.msg, tx.msg.instrs[i])| == |ixs[i].metas|
    ensures forall j :: 0 <= j < |ixs[i].metas| ==> Accounts(tx.msg, tx.msg.instrs[i])[j] == ixs[i].metas[j].key
  {
    assert Resolves(tx.msg, tx.msg.instrs[i], ixs[i]);
  }

  /** Through any account table, the compiled instructions stay in range and read as built. */
  lemma CompiledInstructions(env: Env, sysvar: Pubkey, depositor: Pubkey, recipient: Pubkey, amount: int,
                             id: Bytes, salt: Bytes, nonce: Option<NonceSetup>, maxFee: int, tx: Tx)
    requires ProgramsDiffer(env)
    requires DraftDeposit(env, sysvar, depositor, recipient, amount, id, salt, nonce).Success?
    requires CompiledFrom(tx, DraftDeposit(env, sysvar, depositor, recipient, amount, id, salt, nonce).value, depositor)
    ensures forall ix :: ix in tx.msg.instrs ==> InRange(tx.msg, ix)
    ensures var e := MatchingExpect(depositor, recipient, amount, id, salt, nonce, maxFee);
            var b, d := DraftSound.Lead(e), DraftSound.Last(e);
            && |tx.msg.instrs| == b + 3 && |tx.msg.instrs[b].data| == 5 && |tx.msg.instrs[b + 1].data| == 9
            && var ix := tx.msg.instrs[d];
            && InRange(tx.msg, ix) && IsDepositData(ix.data)
            && ix.data[1..33] == id && U64(ix.data, 33) == amount >= RENT_EXEMPT_LAMPORTS
            && ix.data[41..73] == env.sha256(recipient + salt) && I64(ix.data, 73) == 0
            && AccountsAsExpected(env, Accounts(tx.msg, ix), EscrowPda(env, id), e)
  {
    var ixs := DraftDeposit(env, sysvar, depositor, recipient, amount, id, salt, nonce).value;
    var e := MatchingExpect(depositor, recipient, amount, id, salt, nonce, maxFee);
    var b, d := DraftSound.Lead(e), DraftSound.Last(e);
    BuiltFields(env, sysvar, depositor, recipient, amount, id, salt, nonce, ixs);
    hide DraftDeposit, Hex, U64, U32, I64, InRange, EscrowPda, SignerKeys, Unsigned, IsDepositData;
    CompiledInRange(tx, ixs, depositor);
    ResolvedAt(tx, ixs, depositor, b);
    ResolvedAt(tx, ixs, depositor, b + 1);
    ResolvedAt(tx, ixs, depositor, d);
    hide CompiledFrom;
  }

  predicate HasDepositFields(env: Env, ix: Ix, depositor: Pubkey, amount: int, id: Bytes, commitment: Bytes) {
    && IsDepositData(ix.data) && ix.data[1..33] == id && U64(ix.data, 33) == amount >= RENT_EXEMPT_LAMPORTS
    && ix.data[41..73] == commitment && I64(ix.data, 73) == 0
    && |ix.metas| == 3 && ix.metas[0].key == depositor && ix.metas[1].key == EscrowPda(env, id)
    && ix.metas[2].key == env.system
  }

  /** The built instructions, field by field. */
  lemma BuiltFields(env: Env, sysvar: Pubkey, depositor: Pubkey, recipient: Pubkey, amount: int,
                    id: Bytes, salt: Bytes, nonce: Option<NonceSetup>, ixs: seq<Ix>)
    requires DraftDeposit(env, sysvar, depositor, recipient, amount, id, salt, nonce) == Success(ixs)
    ensures var b := if nonce.Some? then 1 else 0;
            && |ixs| == b + 3 && |ixs[b].data| == 5 && |ixs[b + 1].data| == 9
            && HasDepositFields(env, ixs[b + 2], depositor, amount, id, env.sha256(recipient + salt))
  {
    DepositDataFields(id, amount, env.sha256(recipient + salt), 0);
    hide DepositData, LE, Pack, U64, I64, EscrowPda;
  }
}
