/** What a passed draft verification means: executing the transaction does the expected deposit and
    nothing else, and every draft the builder makes for a single signer passes. */
module DraftSound {
  import opened Wrappers
  import opened Wire
  import opened Runtime
  import opened Draft

  function Lead(e: Expect): nat {
    if e.nonce.Some? then 1 else 0
  }

  /** Position of the deposit in a transaction of the expected shape. */
  function Last(e: Expect): nat {
    Lead(e) + 2
  }

  lemma ShapeMeans(env: Env, msg: Message, e: Expect)
    requires Kinds(env, msg) == Want(e)
    ensures |msg.instrs| == Lead(e) + 3
    ensures e.nonce.Some? ==> KindOf(env, msg, msg.instrs[0]) == AdvanceNonceIx
    ensures KindOf(env, msg, msg.instrs[Lead(e)]) == CbLimitIx
    ensures KindOf(env, msg, msg.instrs[Lead(e) + 1]) == CbPriceIx
    ensures KindOf(env, msg, msg.instrs[Last(e)]) == DepositIx
  {
    var k := Kinds(env, msg);
    assert |k| == |msg.instrs|;
    assert k[Lead(e)] == CbLimitIx && k[Lead(e) + 1] == CbPriceIx && k[Last(e)] == DepositIx;
    if e.nonce.Some? {
      assert k[0] == AdvanceNonceIx;
    }
  }

  lemma DepositFound(env: Env, msg: Message, e: Expect)
    requires Kinds(env, msg) == Want(e)
    ensures FindDeposit(env, msg, 0) == Some(Last(e))
  {
    ShapeMeans(env, msg, e);
    assert FindDeposit(env, msg, Last(e)) == Some(Last(e));
    assert FindDeposit(env, msg, Lead(e) + 1) == Some(Last(e));
    assert FindDeposit(env, msg, Lead(e)) == Some(Last(e));
  }

  // ---- the fee ----

  lemma FeeScanOfShape(env: Env, msg: Message, e: Expect)
    requires ProgramsDiffer(env) && Kinds(env, msg) == Want(e)
    ensures |msg.instrs| == Lead(e) + 3
    ensures var limit, price := msg.instrs[Lead(e)].data, msg.instrs[Lead(e) + 1].data;
            && |limit| > 0 && |price| > 0
            && FeeScanned(env, msg, |msg.instrs|)
               == FeeScan(if |limit| >= 5 then Some(U32(limit, 1)) else None,
                          if |price| >= 9 then U64(price, 1) else 0, 0,
                          (if |limit| >= 5 then 0 else 1) + (if |price| >= 9 then 0 else 1))
  {
    ShapeMeans(env, msg, e);
    var b := Lead(e);
    assert FeeScanned(env, msg, 0) == FeeScan(None, 0, 0, 0);
    assert FeeScanned(env, msg, b) == FeeScan(None, 0, 0, 0);
    assert FeeScanned(env, msg, b + 1) == FeeStep(env, msg, FeeScanned(env, msg, b), msg.instrs[b]);
    assert FeeScanned(env, msg, b + 2) == FeeStep(env, msg, FeeScanned(env, msg, b + 1), msg.instrs[b + 1]);
    assert FeeScanned(env, msg, b + 3) == FeeScanned(env, msg, b + 2);
  }

  /** For an accepted shape with readable budget data, the price the verifier quotes is what the
      runtime takes. */
  lemma QuotedFeeIsRuntimeFee(env: Env, msg: Message, e: Expect)
    requires ProgramsDiffer(env) && Kinds(env, msg) == Want(e)
    requires FeeScanned(env, msg, |msg.instrs|).unknown == 0
    ensures BudgetValid(env, msg)
    ensures QuotedFee(msg, FeeScanned(env, msg, |msg.instrs|)) == RuntimeFee(env, msg)
  {
    ShapeMeans(env, msg, e);
    FeeScanOfShape(env, msg, e);
    var b := Lead(e);
    var limit, price := msg.instrs[b].data, msg.instrs[b + 1].data;
    assert !IsBudget(env, msg, msg.instrs[b + 2]);
    assert FindBudget(env, msg, CB_LIMIT, b + 3) == FindBudget(env, msg, CB_LIMIT, b + 2)
        == FindBudget(env, msg, CB_LIMIT, b + 1) == Some(b);
    assert FindBudget(env, msg, CB_PRICE, b + 3) == FindBudget(env, msg, CB_PRICE, b + 2) == Some(b + 1);
    CeilDivIsCovering(Min(U32(limit, 1), MAX_CU_LIMIT) * U64(price, 1));
  }

  // ---- movements ----

  lemma SeenOfShape(env: Env, msg: Message, e: Expect)
    requires ProgramsDiffer(env) && Kinds(env, msg) == Want(e)
    requires forall ix :: ix in msg.instrs ==> InRange(msg, ix)
    ensures |msg.instrs| == Lead(e) + 3 && |msg.instrs[Last(e)].data| == DEPOSIT_LEN
    ensures var data := msg.instrs[Last(e)].data;
            var deposit := Movement(Some(U64(data, 33)), Some(EscrowPda(env, data[1..33])), true);
            Listed(env, msg, |msg.instrs|)
            == Seen((if e.nonce.Some? then [Movement(Some(0), At(Accounts(msg, msg.instrs[0]), 0), false)] else [])
                    + [deposit], 0)
  {
    ShapeMeans(env, msg, e);
    var b := Lead(e);
    assert msg.instrs[0] in msg.instrs && msg.instrs[b] in msg.instrs;
    assert msg.instrs[b + 1] in msg.instrs && msg.instrs[b + 2] in msg.instrs;
    assert Listed(env, msg, 0) == Seen([], 0);
    if e.nonce.Some? {
      assert Listed(env, msg, 1) == Seen([Movement(Some(0), At(Accounts(msg, msg.instrs[0]), 0), false)], 0);
    }
    assert Listed(env, msg, b + 1) == Listed(env, msg, b);
    assert Listed(env, msg, b + 2) == Listed(env, msg, b + 1);
  }

  lemma TotalsOfOne(lead: seq<Movement>, m: Movement)
    requires lead == [] || (|lead| == 1 && lead[0].lamports == Some(0) && !lead[0].deposit)
    requires m.lamports.Some? && m.lamports.value > 0 && m.deposit
    ensures TotalOut(lead + [m]) == m.lamports.value
    ensures DepositsIn(lead + [m]) == 1
    ensures Destinations(lead + [m]) == {m.to}
  {
    assert (lead + [m])[..|lead|] == lead;
    if lead != [] {
      assert lead[..0] == [];
    }
  }

  lemma ShapeUsesKnownPrograms(env: Env, msg: Message, e: Expect)
    requires Kinds(env, msg) == Want(e)
    ensures OnlyKnownPrograms(env, msg)
  {
    ShapeMeans(env, msg, e);
    forall ix | ix in msg.instrs && ix.program < |msg.keys| ensures KnownProgram(env, msg.keys[ix.program]) {
      var i :| 0 <= i < |msg.instrs| && msg.instrs[i] == ix;
      assert KindOf(env, msg, msg.instrs[i]) != OtherIx;
    }
  }

  /** The shape subsumes the arithmetic: with all indices in range and readable budget data, a matching
      shape and a deposit of the expected, rent-covering amount already make every check on decoding,
      deposits, programs, totals and destinations pass. */
  lemma ShapeSubsumesArithmetic(env: Env, msg: Message, e: Expect)
    requires ProgramsDiffer(env) && Kinds(env, msg) == Want(e)
    requires forall ix :: ix in msg.instrs ==> InRange(msg, ix)
    requires |msg.instrs| == Lead(e) + 3 && |msg.instrs[Last(e)].data| == DEPOSIT_LEN
    requires |msg.instrs[Lead(e)].data| >= 5 && |msg.instrs[Lead(e) + 1].data| >= 9
    requires U64(msg.instrs[Last(e)].data, 33) == e.amount >= RENT_EXEMPT_LAMPORTS
    ensures ArithmeticAsExpected(env, msg, EscrowPda(env, msg.instrs[Last(e)].data[1..33]), e)
  {
    ShapeMeans(env, msg, e);
    FeeScanOfShape(env, msg, e);
    SeenOfShape(env, msg, e);
    var data := msg.instrs[Last(e)].data;
    var deposit := Movement(Some(U64(data, 33)), Some(EscrowPda(env, data[1..33])), true);
    TotalsOfOne(if e.nonce.Some? then [Movement(Some(0), At(Accounts(msg, msg.instrs[0]), 0), false)] else [], deposit);
    ShapeUsesKnownPrograms(env, msg, e);
  }

  // ---- soundness against execution ----

  /** The only change from `before` to `after` is the fee, the named nonce and, if it went through,
      the expected deposit into the escrow of `id`. */
  ghost predicate DoesOnly(env: Env, e: Expect, id: Bytes, fee: nat, before: Bank, after: Bank, deposited: bool)
    requires e.salt.Some? && e.amount >= 0
  {
    var escrow := EscrowPda(env, id);
    var moved := if deposited then e.amount else 0;
    && (forall k :: Balance(after, k)
                 == Balance(before, k) - (if k == e.depositor then fee + moved else 0) + (if k == escrow then moved else 0))
    && (forall k :: NonceUses(after, k) == NonceUses(before, k) + (if e.nonce == Some(k) then 1 else 0))
    && after.names == before.names
    && after.escrows == if deposited
                        then before.escrows[escrow := Escrow(e.depositor, e.amount, env.sha256(e.recipient + e.salt.value), 0)]
                        else before.escrows
  }

  lemma NonceStep(env: Env, other: Other, msg: Message, e: Expect, b: Bank)
    requires ProgramsDiffer(env) && ShapeAsExpected(env, msg, e) && e.nonce.Some?
    requires |msg.instrs| > 0 && InRange(msg, msg.instrs[0])
    ensures var r := RunIx(env, other, msg, msg.instrs[0], b);
            r.None? || r == Some(AdvanceNonce(b, e.nonce.value))
  {
    ShapeMeans(env, msg, e);
    var ix := msg.instrs[0];
    assert NoncesNamed(env, msg, 0) == [];
    assert NoncesNamed(env, msg, 1) == [NonceNamed(msg, ix)];
    assert NoncesNamed(env, msg, 2) == NoncesNamed(env, msg, 1);
    assert NoncesNamed(env, msg, 3) == NoncesNamed(env, msg, 2);
    assert NoncesNamed(env, msg, 4) == NoncesNamed(env, msg, 3);
    assert NonceNamed(msg, ix) == e.nonce;
  }

  /** The deposit instruction itself, on any state. */
  lemma DepositStep(env: Env, other: Other, msg: Message, ix: Instr, e: Expect, b: Bank)
    requires ProgramsDiffer(env) && InRange(msg, ix) && KindOf(env, msg, ix) == DepositIx
    requires FieldsAsExpected(env, ix.data, e)
    requires AccountsAsExpected(env, Accounts(msg, ix), EscrowPda(env, ix.data[1..33]), e)
    ensures var r := RunIx(env, other, msg, ix, b);
            var escrow := EscrowPda(env, ix.data[1..33]);
            r.None? ||
            r == Some(Move(b, e.depositor, escrow, e.amount).(escrows :=
                        b.escrows[escrow := Escrow(e.depositor, e.amount, env.sha256(e.recipient + e.salt.value), 0)]))
  {
  }

  /** Everything after the nonce: two budget instructions without effect, then the deposit. */
  lemma RunTail(env: Env, other: Other, msg: Message, e: Expect, b: Bank)
    requires ProgramsDiffer(env) && Kinds(env, msg) == Want(e)
    requires forall ix :: ix in msg.instrs ==> InRange(msg, ix)
    requires |msg.instrs| == Lead(e) + 3
    ensures forall ix :: ix in msg.instrs[Lead(e)..] ==> InRange(msg, ix)
    ensures msg.instrs[Last(e)] in msg.instrs
    ensures RunAll(env, other, msg, msg.instrs[Lead(e)..], b) == RunIx(env, other, msg, msg.instrs[Last(e)], b)
  {
    ShapeMeans(env, msg, e);
    var d := Lead(e);
    var t := msg.instrs[d..];
    assert forall ix :: ix in t ==> ix in msg.instrs;
    assert t[0] == msg.instrs[d] && t[1..][0] == msg.instrs[d + 1] && t[1..][1..][0] == msg.instrs[d + 2];
    var u := t[1..][1..];
    assert u[1..] == [];
    assert RunIx(env, other, msg, t[0], b) == Some(b);
    assert RunIx(env, other, msg, t[1..][0], b) == Some(b);
    assert RunAll(env, other, msg, t, b) == RunAll(env, other, msg, t[1..], b);
    assert RunAll(env, other, msg, t[1..], b) == RunAll(env, other, msg, u, b);
    var r := RunIx(env, other, msg, u[0], b);
    if r.Some? {
      assert RunAll(env, other, msg, u[1..], r.value) == Some(r.value);
    }
  }

  lemma AcceptedIsInRange(env: Env, tx: Tx, e: Expect)
    requires Accepts(env, tx, e)
    ensures forall ix :: ix in tx.msg.instrs ==> InRange(tx.msg, ix)
  {
    var msg := tx.msg;
    forall i | 0 <= i < |msg.instrs| ensures InRange(msg, msg.instrs[i]) {
      UndecodableGrows(env, msg, i + 1, |msg.instrs|);
    }
  }

  lemma {:induction false} UndecodableGrows(env: Env, msg: Message, i: nat, n: nat)
    requires i <= n <= |msg.instrs|
    ensures Listed(env, msg, i).undecodable <= Listed(env, msg, n).undecodable
  {
    if i < n {
      UndecodableGrows(env, msg, i, n - 1);
    }
  }

  lemma ChargedEffect(env: Env, e: Expect, id: Bytes, fee: nat, before: Bank)
    requires e.salt.Some? && e.amount >= 0 && e.nonce.None?
    ensures DoesOnly(env, e, id, fee, before, Credit(before, e.depositor, -(fee as int)), false)
  {
  }

  lemma AdvancedEffect(env: Env, e: Expect, id: Bytes, fee: nat, before: Bank)
    requires e.salt.Some? && e.amount >= 0 && e.nonce.Some?
    ensures DoesOnly(env, e, id, fee, before, AdvanceNonce(Credit(before, e.depositor, -(fee as int)), e.nonce.value), false)
  {
  }

  lemma DepositedEffect(env: Env, e: Expect, id: Bytes, fee: nat, before: Bank, charged: Bank, after: Bank)
    requires e.salt.Some? && e.amount >= 0
    requires DoesOnly(env, e, id, fee, before, charged, false)
    requires after == Move(charged, e.depositor, EscrowPda(env, id), e.amount).(escrows :=
                        charged.escrows[EscrowPda(env, id) :=
                                        Escrow(e.depositor, e.amount, env.sha256(e.recipient + e.salt.value), 0)])
    ensures DoesOnly(env, e, id, fee, before, after, true)
  {
    forall k ensures NonceUses(after, k) == NonceUses(charged, k) {
    }
  }

  /** The accepted deposit's escrow id. */
  function AcceptedId(env: Env, tx: Tx, e: Expect): Bytes
    requires Accepts(env, tx, e)
  {
    tx.msg.instrs[FindDeposit(env, tx.msg, 0).value].data[1..33]
  }

  lemma RunWithoutNonce(env: Env, other: Other, tx: Tx, e: Expect, charged: Bank)
    requires ProgramsDiffer(env) && Accepts(env, tx, e) && e.nonce.None?
    ensures forall ix :: ix in tx.msg.instrs ==> InRange(tx.msg, ix)
    ensures |tx.msg.instrs| == 3 && !LeadsWithNonce(env, tx.msg)
    ensures RunAll(env, other, tx.msg, tx.msg.instrs, charged) == RunIx(env, other, tx.msg, tx.msg.instrs[2], charged)
  {
    AcceptedIsInRange(env, tx, e);
    ShapeMeans(env, tx.msg, e);
    assert tx.msg.instrs[0..] == tx.msg.instrs;
    RunTail(env, other, tx.msg, e, charged);
  }

  lemma RunWithNonce(env: Env, other: Other, tx: Tx, e: Expect, charged: Bank)
    requires ProgramsDiffer(env) && Accepts(env, tx, e) && e.nonce.Some?
    ensures forall ix :: ix in tx.msg.instrs ==> InRange(tx.msg, ix)
    ensures |tx.msg.instrs| == 4
    ensures var advanced := RunIx(env, other, tx.msg, tx.msg.instrs[0], charged);
            && (advanced.None? || advanced == Some(AdvanceNonce(charged, e.nonce.value)))
            && RunAll(env, other, tx.msg, tx.msg.instrs, charged)
               == if advanced.None? then None
                  else RunIx(env, other, tx.msg, tx.msg.instrs[3], advanced.value)
    ensures LeadsWithNonce(env, tx.msg)
  {
    AcceptedIsInRange(env, tx, e);
    ShapeMeans(env, tx.msg, e);
    assert tx.msg.instrs[0] in tx.msg.instrs;
    NonceStep(env, other, tx.msg, e, charged);
    RunTail(env, other, tx.msg, e, AdvanceNonce(charged, e.nonce.value));
  }

  /** Soundness: if the verifier passes a transaction then, whatever other programs do and whatever the
      state is, processing it either changes nothing, takes only the fee, or takes exactly the expected
      amount and the fee from the depositor, credits only the escrow of the reported id with the
      commitment of the expected recipient and no lock, and advances no nonce but the named one. The
      fee is the quoted one, within the caller's bound. */
  lemma DraftIsSound(env: Env, other: Other, tx: Tx, e: Expect, before: Bank)
    requires ProgramsDiffer(env) && Accepts(env, tx, e)
    ensures e.salt.Some? && e.amount >= RENT_EXEMPT_LAMPORTS
    ensures RuntimeFee(env, tx.msg) == QuotedFee(tx.msg, FeeScanned(env, tx.msg, |tx.msg.instrs|)) <= e.maxFee
    ensures var fee, id := RuntimeFee(env, tx.msg), AcceptedId(env, tx, e);
            match Process(env, other, tx.msg, before)
            case NotProcessed => true
            case FeeOnly(after) => DoesOnly(env, e, id, fee, before, after, false)
            case Executed(after) => DoesOnly(env, e, id, fee, before, after, true)
  {
    hide DoesOnly, RunIx, RunAll, RuntimeFee, QuotedFee, FeeScanned, Listed;
    var msg := tx.msg;
    DepositFound(env, msg, e);
    ShapeMeans(env, msg, e);
    QuotedFeeIsRuntimeFee(env, msg, e);
    var fee, id := RuntimeFee(env, msg), AcceptedId(env, tx, e);
    var charged := Credit(before, e.depositor, -(fee as int));
    if e.nonce.None? {
      RunWithoutNonce(env, other, tx, e, charged);
      EffectOfRun(env, other, tx, e, before, charged, charged);
    } else {
      RunWithNonce(env, other, tx, e, charged);
      EffectOfRun(env, other, tx, e, before, charged, AdvanceNonce(charged, e.nonce.value));
    }
  }

  /** From the state the deposit starts in, both of its outcomes are the promised ones. */
  lemma EffectOfRun(env: Env, other: Other, tx: Tx, e: Expect, before: Bank, charged: Bank, ready: Bank)
    requires ProgramsDiffer(env) && Accepts(env, tx, e)
    requires charged == Credit(before, e.depositor, -(RuntimeFee(env, tx.msg) as int))
    requires ready == if e.nonce.Some? then AdvanceNonce(charged, e.nonce.value) else charged
    ensures e.salt.Some? && e.amount >= 0
    ensures DoesOnly(env, e, AcceptedId(env, tx, e), RuntimeFee(env, tx.msg), before, ready, false)
    ensures var ix := tx.msg.instrs[FindDeposit(env, tx.msg, 0).value];
            InRange(tx.msg, ix) && var r := RunIx(env, other, tx.msg, ix, ready);
            r.Some? ==> DoesOnly(env, e, AcceptedId(env, tx, e), RuntimeFee(env, tx.msg), before, r.value, true)
  {
    hide DoesOnly, RunIx, RuntimeFee, QuotedFee, FeeScanned, Listed, Move;
    var fee, id := RuntimeFee(env, tx.msg), AcceptedId(env, tx, e);
    var ix := tx.msg.instrs[FindDeposit(env, tx.msg, 0).value];
    DepositStep(env, other, tx.msg, ix, e, ready);
    if e.nonce.None? {
      ChargedEffect(env, e, id, fee, before);
    } else {
      AdvancedEffect(env, e, id, fee, before);
    }
    var r := RunIx(env, other, tx.msg, ix, ready);
    if r.Some? {
      DepositedEffect(env, e, id, fee, before, ready, r.value);
    }
  }
}
