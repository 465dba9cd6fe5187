/** Which transactions the draft verifier passes, said without its checks (src/xete_mcp/draft.py
    `_verify_draft`): exactly the drafts of the expected deposit. */
module DraftExact {
  import opened Wrappers
  import opened Wire
  import opened Runtime
  import opened Draft
  import opened DraftBuild
  import DraftSound

  /** The program and the accounts of an instruction are in the account table. */
  predicate Resolved(msg: Message, ix: Instr) {
    ix.program < |msg.keys| && forall j :: 0 <= j < |ix.accounts| ==> ix.accounts[j] < |msg.keys|
  }

  predicate AdvancesNonce(env: Env, msg: Message, ix: Instr, account: Pubkey) {
    && Resolved(msg, ix) && msg.keys[ix.program] == env.system
    && |ix.data| >= 4 && ix.data[..4] == [4, 0, 0, 0]
    && |ix.accounts| > 0 && msg.keys[ix.accounts[0]] == account
  }

  /** The deposit of the expected amount into the escrow of `id`, for the expected recipient and salt, from
      the depositor, without a lock. */
  predicate DepositsTo(env: Env, msg: Message, ix: Instr, e: Expect, id: Bytes) {
    && Resolved(msg, ix) && msg.keys[ix.program] == env.settlement
    && e.salt.Some? && 1_454_640 <= e.amount < U64_LIMIT
    && |id| == 32 && |ix.data| == 81 && ix.data == DepositData(id, e.amount, env.sha256(e.recipient + e.salt.value), 0)
    && |ix.accounts| >= 3 && msg.keys[ix.accounts[0]] == e.depositor
    && msg.keys[ix.accounts[1]] == env.pda([ESCROW_SEED, id], env.settlement)
    && msg.keys[ix.accounts[2]] == env.system
  }

  /** A compute-budget instruction with this operation and room for its operand. */
  predicate SetsBudget(env: Env, msg: Message, ix: Instr, tag: byte, width: nat) {
    && Resolved(msg, ix) && msg.keys[ix.program] == env.budget
    && |ix.data| >= 1 + width && ix.data[0] == tag
  }

  /** The draft of the expected deposit: unsigned, one signature, ours to pay; at most the named nonce, a unit
      limit, a unit price, and the deposit, in this order and nothing else; and a fee within the bound. */
  ghost predicate IsDraftOf(env: Env, tx: Tx, e: Expect, id: Bytes) {
    var n, ixs := if e.nonce.Some? then 1 else 0, tx.msg.instrs;
    var empty: Signature := seq(64, _ => 0);
    && (forall s :: s in tx.signatures ==> s == empty)
    && tx.msg.signers == 1 && |tx.msg.keys| > 0 && tx.msg.keys[0] == e.depositor
    && |ixs| == n + 3
    && (e.nonce.Some? ==> AdvancesNonce(env, tx.msg, ixs[0], e.nonce.value))
    && SetsBudget(env, tx.msg, ixs[n], 2, 4) && SetsBudget(env, tx.msg, ixs[n + 1], 3, 8)
    && DepositsTo(env, tx.msg, ixs[n + 2], e, id)
    && (e.escrowId.Some? ==> e.escrowId.value == Hex(id))
    && 5_000 + PriorityFee(Min(U32(ixs[n].data, 1), 1_400_000), U64(ixs[n + 1].data, 1)) <= e.maxFee
  }

  lemma ResolvedIs(msg: Message, ix: Instr)
    ensures Resolved(msg, ix) <==> InRange(msg, ix)
  {
    assert forall j :: 0 <= j < |ix.accounts| ==> ix.accounts[j] in ix.accounts;
  }

  lemma AdvanceTag(data: Bytes)
    requires |data| >= 4
    ensures U32(data, 0) == SYS_ADVANCE_NONCE <==> data[..4] == [4, 0, 0, 0]
  {
    WidthLimits();
    var four: Bytes := [4, 0, 0, 0];
    PackUnpack(data[0..4]);
    PackUnpack(four);
    assert LE(four) == 4 by {
      assert four[1..] == [0, 0, 0] && four[1..][1..] == [0, 0] && four[1..][1..][1..] == [0];
    }
    assert data[0..4] == data[..4];
  }

  lemma UnsignedIs(tx: Tx)
    ensures var empty: Signature := seq(64, _ => 0);
            Unsigned(tx) <==> forall s :: s in tx.signatures ==> s == empty
  {
    var empty: Signature := seq(64, _ => 0);
    forall s: Signature ensures IsEmptySlot(s) <==> s == empty {
    }
  }

  /** The checks on the deposit instruction, declaratively. */
  lemma DepositChecked(env: Env, msg: Message, ix: Instr, e: Expect)
    requires InRange(msg, ix) && msg.keys[ix.program] == env.settlement && IsDepositData(ix.data)
    ensures var id := ix.data[1..33];
            FieldsAsExpected(env, ix.data, e) && AccountsAsExpected(env, Accounts(msg, ix), EscrowPda(env, id), e)
            <==> DepositsTo(env, msg, ix, e, id) && (e.escrowId.Some? ==> e.escrowId.value == Hex(id))
  {
    ResolvedIs(msg, ix);
    var data, id := ix.data, ix.data[1..33];
    WidthLimits();
    PackUnpack(data[33..41]);
    if I64(data, 73) == 0 {
      FieldsDetermineData(data);
    }
    if DepositsTo(env, msg, ix, e, id) {
      DepositDataFields(id, e.amount, env.sha256(e.recipient + e.salt.value), 0);
    }
    hide Hex, Pack, LE, DepositData, I64;
  }

  lemma IdOfDeposit(env: Env, msg: Message, ix: Instr, e: Expect, id: Bytes)
    requires DepositsTo(env, msg, ix, e, id)
    ensures IsDepositData(ix.data) && id == ix.data[1..33] && InRange(msg, ix)
  {
    ResolvedIs(msg, ix);
    DepositDataSlices(id, e.amount, env.sha256(e.recipient + e.salt.value), 0);
  }

  /** The kinds of the expected shape, declaratively. */
  lemma KindIs(env: Env, msg: Message, ix: Instr)
    requires ProgramsDiffer(env)
    ensures KindOf(env, msg, ix) == CbLimitIx
       <==> ix.program < |msg.keys| && msg.keys[ix.program] == env.budget && |ix.data| > 0 && ix.data[0] == 2
    ensures KindOf(env, msg, ix) == CbPriceIx
       <==> ix.program < |msg.keys| && msg.keys[ix.program] == env.budget && |ix.data| > 0 && ix.data[0] == 3
    ensures KindOf(env, msg, ix) == DepositIx
       <==> ix.program < |msg.keys| && msg.keys[ix.program] == env.settlement && IsDepositData(ix.data)
    ensures KindOf(env, msg, ix) == AdvanceNonceIx
       <==> ix.program < |msg.keys| && msg.keys[ix.program] == env.system && |ix.data| >= 4 && ix.data[..4] == [4, 0, 0, 0]
  {
    if |ix.data| >= 4 {
      AdvanceTag(ix.data);
    }
    hide U32;
  }

  /** Acceptance is exact: a transaction passes if and only if it is the draft of the expected deposit into
      the escrow of some id. */
  lemma AcceptanceIsExact(env: Env, tx: Tx, e: Expect)
    requires ProgramsDiffer(env)
    ensures Accepts(env, tx, e) <==> exists id :: IsDraftOf(env, tx, e, id)
  {
    hide Accepts, IsDraftOf;
    if Accepts(env, tx, e) {
      AcceptedIsDraft(env, tx, e);
    }
    forall id | IsDraftOf(env, tx, e, id) ensures Accepts(env, tx, e) {
      DraftIsAccepted(env, tx, e, id);
    }
  }

  lemma AcceptedShape(env: Env, tx: Tx, e: Expect)
    requires ProgramsDiffer(env) && Accepts(env, tx, e)
    ensures var n, ixs := DraftSound.Lead(e), tx.msg.instrs;
            && |ixs| == n + 3 && FindDeposit(env, tx.msg, 0) == Some(n + 2)
            && (forall i :: 0 <= i < |ixs| ==> Resolved(tx.msg, ixs[i]))
            && (e.nonce.Some? ==> AdvancesNonce(env, tx.msg, ixs[0], e.nonce.value))
            && SetsBudget(env, tx.msg, ixs[n], 2, 4) && SetsBudget(env, tx.msg, ixs[n + 1], 3, 8)
  {
    var msg, n := tx.msg, DraftSound.Lead(e);
    DraftSound.AcceptedIsInRange(env, tx, e);
    DraftSound.ShapeMeans(env, msg, e);
    DraftSound.DepositFound(env, msg, e);
    DraftSound.FeeScanOfShape(env, msg, e);
    hide Listed, Want, Kinds, Unsigned, LE, Hex, FieldsAsExpected, AccountsAsExpected;
    forall i | 0 <= i < |msg.instrs| ensures Resolved(msg, msg.instrs[i]) {
      assert msg.instrs[i] in msg.instrs;
      ResolvedIs(msg, msg.instrs[i]);
    }
    KindIs(env, msg, msg.instrs[n]);
    KindIs(env, msg, msg.instrs[n + 1]);
    if e.nonce.Some? {
      KindIs(env, msg, msg.instrs[0]);
      NoncesOfShape(env, msg, e);
    }
  }

  /** The fee of the expected shape with readable budget data. */
  lemma FeeIs(env: Env, msg: Message, e: Expect)
    requires ProgramsDiffer(env) && Kinds(env, msg) == Want(e)
    ensures var n := DraftSound.Lead(e);
            && |msg.instrs| == n + 3
            && (|msg.instrs[n].data| >= 5 && |msg.instrs[n + 1].data| >= 9 ==>
                  && FeeScanned(env, msg, n + 3).unknown == 0
                  && QuotedFee(msg, FeeScanned(env, msg, n + 3))
                     == 5_000 * msg.signers
                        + PriorityFee(Min(U32(msg.instrs[n].data, 1), 1_400_000), U64(msg.instrs[n + 1].data, 1)))
  {
    var n := DraftSound.Lead(e);
    DraftSound.FeeScanOfShape(env, msg, e);
    hide Kinds, Want, LE, FeeScanned;
    if |msg.instrs[n].data| >= 5 && |msg.instrs[n + 1].data| >= 9 {
      CeilDivIsCovering(Min(U32(msg.instrs[n].data, 1), MAX_CU_LIMIT) * U64(msg.instrs[n + 1].data, 1));
    }
  }

  lemma AcceptedIsDraft(env: Env, tx: Tx, e: Expect)
    requires ProgramsDiffer(env) && Accepts(env, tx, e)
    ensures FindDeposit(env, tx.msg, 0).Some?
    ensures IsDraftOf(env, tx, e, tx.msg.instrs[FindDeposit(env, tx.msg, 0).value].data[1..33])
  {
    var msg, n := tx.msg, DraftSound.Lead(e);
    AcceptedShape(env, tx, e);
    FeeIs(env, msg, e);
    UnsignedIs(tx);
    KindIs(env, msg, msg.instrs[n + 2]);
    ResolvedIs(msg, msg.instrs[n + 2]);
    DepositChecked(env, msg, msg.instrs[n + 2], e);
    hide Listed, Want, Kinds, Unsigned, LE, Hex, DepositsTo, SetsBudget, AdvancesNonce, FeeScanned, QuotedFee,
         FieldsAsExpected, AccountsAsExpected, EscrowPda;
  }

  lemma DraftShape(env: Env, tx: Tx, e: Expect, id: Bytes)
    requires ProgramsDiffer(env) && IsDraftOf(env, tx, e, id)
    ensures Kinds(env, tx.msg) == Want(e) && (e.nonce.Some? ==> NoncesNamed(env, tx.msg, |tx.msg.instrs|) == [e.nonce])
    ensures forall ix :: ix in tx.msg.instrs ==> InRange(tx.msg, ix)
  {
    var msg, n := tx.msg, DraftSound.Lead(e);
    hide Unsigned, LE, Hex, DepositData, PriorityFee, Kinds, Want;
    forall ix | ix in msg.instrs ensures InRange(msg, ix) {
      var i :| 0 <= i < |msg.instrs| && msg.instrs[i] == ix;
      ResolvedIs(msg, ix);
    }
    IdOfDeposit(env, msg, msg.instrs[n + 2], e, id);
    KindIs(env, msg, msg.instrs[n]);
    KindIs(env, msg, msg.instrs[n + 1]);
    KindIs(env, msg, msg.instrs[n + 2]);
    if e.nonce.Some? {
      KindIs(env, msg, msg.instrs[0]);
    }
    KindsAre(env, msg, e);
    if e.nonce.Some? {
      NoncesOfShape(env, msg, e);
    }
  }

  lemma DraftIsAccepted(env: Env, tx: Tx, e: Expect, id: Bytes)
    requires ProgramsDiffer(env) && IsDraftOf(env, tx, e, id)
    ensures Accepts(env, tx, e)
  {
    var msg, n := tx.msg, DraftSound.Lead(e);
    var ix := msg.instrs[n + 2];
    DraftShape(env, tx, e, id);
    UnsignedIs(tx);
    FeeIs(env, msg, e);
    IdOfDeposit(env, msg, ix, e, id);
    DepositChecked(env, msg, ix, e);
    DraftSound.DepositFound(env, msg, e);
    AmountIs(env, msg, ix, e, id);
    DraftSound.ShapeSubsumesArithmetic(env, msg, e);
    hide Listed, Want, Kinds, Unsigned, LE, Hex, DepositsTo, AdvancesNonce, FeeScanned, QuotedFee, EscrowPda,
         FieldsAsExpected, AccountsAsExpected, ArithmeticAsExpected, NoncesNamed;
  }

  lemma AmountIs(env: Env, msg: Message, ix: Instr, e: Expect, id: Bytes)
    requires DepositsTo(env, msg, ix, e, id)
    ensures U64(ix.data, 33) == e.amount >= RENT_EXEMPT_LAMPORTS
  {
    DepositDataFields(id, e.amount, env.sha256(e.recipient + e.salt.value), 0);
  }
}
