/** The round trip of a name claim: a claim made honestly for what the caller expects passes the inspection
    (src/xete_mcp/txguard.py `inspect_alias_claim`). */
module ClaimBuild {
  import opened Wrappers
  import opened Wire
  import opened Runtime
  import opened Claim
  import opened ClaimSound

  /** A name claim and nothing else: the payer first, then the co-signer, if there is one, then the
      writable accounts and the read-only ones. Without a co-signer the payer is its own authority. */
  function ClaimMessage(env: Env, payer: Pubkey, name: Bytes, key: Bytes, price: nat, payee: Pubkey,
                        coSigner: Option<Pubkey>): Message
    requires |name| < 256
  {
    var b := if coSigner.Some? then 2 else 1;
    Message([payer] + (if coSigner.Some? then [coSigner.value] else [])
            + [AliasPda(env, name), payee, ConfigPda(env), env.system, env.registry],
            b, b - 1, 3,
            [Instr(b + 4, [0, b - 1, b, b + 2, b + 1, b + 3], EncodeClaim(name, key, price))])
  }

  /** Our slot is still empty; the co-signer has signed. */
  function ClaimTx(msg: Message, coSigner: Option<Pubkey>, coSignature: Signature): Tx {
    var empty: Signature := seq(64, _ => 0);
    Tx([empty] + (if coSigner.Some? then [coSignature] else []), msg)
  }

  /** Our wallet has no other role in the claim. */
  predicate OnlyPays(env: Env, payer: Pubkey, name: Bytes, payee: Pubkey, coSigner: Option<Pubkey>) {
    && payer !in [AliasPda(env, name), payee, ConfigPda(env), env.system, env.registry]
    && (coSigner.Some? ==> payer != coSigner.value)
  }

  lemma SlotsOfBuilt(env: Env, e: Expect, key: Bytes, payee: Pubkey, coSigner: Option<Pubkey>)
    requires |e.name| < 256 && 0 <= e.quoted
    ensures var msg := ClaimMessage(env, e.payer, e.name, key, e.quoted, payee, coSigner);
            && |msg.instrs| == 1 && InRange(msg, msg.instrs[0]) && IsClaim(env, msg, msg.instrs[0])
            && (SlotsOfClaim(env, msg, msg.instrs[0], e) <==> (e.treasury.Some? ==> e.treasury.value == payee))
            && PaidBy(msg, msg.instrs[0]) == payee
            && msg.instrs[0].data == EncodeClaim(e.name, key, e.quoted)
  {
    hide EncodeClaim, AliasPda, ConfigPda;
    PdasAre(env, e.name);
  }

  lemma PdasAre(env: Env, name: Bytes)
    ensures AliasPda(env, name) == env.pda([ALIAS_SEED, name], env.registry)
    ensures ConfigPda(env) == env.pda([CONFIG_SEED], env.registry)
  {
  }

  lemma SignersOfBuilt(env: Env, e: Expect, key: Bytes, payee: Pubkey, coSigner: Option<Pubkey>, coSignature: Signature)
    requires |e.name| < 256 && 0 <= e.quoted && OnlyPays(env, e.payer, e.name, payee, coSigner)
    requires var empty: Signature := seq(64, _ => 0); coSignature != empty
    ensures SignersDeclared(ClaimTx(ClaimMessage(env, e.payer, e.name, key, e.quoted, payee, coSigner), coSigner, coSignature), e)
  {
    hide EncodeClaim, AliasPda, ConfigPda;
  }

  /** The key in encoded claim data is the one that was put there. */
  lemma EncodedOnce(e: Expect, key: Bytes, other: Bytes)
    requires |e.name| < 256 && 0 <= e.quoted && |key| == |other| == 32
    requires EncodeClaim(e.name, key, e.quoted) == EncodeClaim(e.name, other, e.quoted)
    ensures key == other
  {
    EncodedFields(e.name, key, e.quoted);
    EncodedFields(e.name, other, e.quoted);
  }

  lemma GoodBuilt(env: Env, e: Expect, key: Bytes, payee: Pubkey, coSigner: Option<Pubkey>)
    requires ProgramsDiffer(env) && Registrable(e.name) && 0 <= e.quoted < U64_LIMIT && |key| == 32
    ensures var msg := ClaimMessage(env, e.payer, e.name, key, e.quoted, payee, coSigner);
            && |msg.instrs| == 1 && HasClaim(env, msg)
            && (GoodList(env, msg, e, 1) <==> (e.treasury.Some? ==> e.treasury.value == payee)
                                              && (e.recordKey.Some? ==> e.recordKey.value == key))
  {
    var msg := ClaimMessage(env, e.payer, e.name, key, e.quoted, payee, coSigner);
    SlotsOfBuilt(env, e, key, payee, coSigner);
    var ix := msg.instrs[0];
    hide ClaimMessage, SlotsOfClaim, EncodeClaim, InRange;
    assert !GoodBudget(env, msg, ix);
    if e.recordKey.Some? && GoodClaim(env, msg, e, ix) {
      EncodedOnce(e, key, e.recordKey.value);
    }
    assert GoodClaim(env, msg, e, ix) <==> GoodList(env, msg, e, 1);
  }

  lemma FreeOfBudget(env: Env, msg: Message)
    requires env.registry != env.budget && |msg.instrs| == 1 && IsClaim(env, msg, msg.instrs[0])
    ensures WorstPriority(env, msg) == 0
  {
    assert FindBudget(env, msg, CB_LIMIT, 0).None? && FindBudget(env, msg, CB_PRICE, 0).None?;
    assert DEFAULT_CU_PER_IX * 0 == 0;
  }

  /** An honest claim passes: one made for the name, the price, the payer, and paying some treasury for some
      record key, is accepted if and only if treasury and key are the pinned ones, where pinned, the plain
      fee fits the tolerance, and its blockhash is not known to be dead. The report names that key, that
      treasury and that fee. */
  lemma HonestClaimPasses(env: Env, digest: Message -> Bytes, e: Expect, key: Bytes, payee: Pubkey,
                          coSigner: Option<Pubkey>, coSignature: Signature)
    requires ProgramsDiffer(env) && Registrable(e.name) && 0 <= e.quoted < U64_LIMIT && |key| == 32
    requires OnlyPays(env, e.payer, e.name, payee, coSigner)
    requires var empty: Signature := seq(64, _ => 0); coSignature != empty
    ensures var tx := ClaimTx(ClaimMessage(env, e.payer, e.name, key, e.quoted, payee, coSigner), coSigner, coSignature);
            var fee := 5_000 * (if coSigner.Some? then 2 else 1);
            && (Inspect(env, digest, tx, e).Success?
                <==> (e.treasury.Some? ==> e.treasury.value == payee)
                     && (e.recordKey.Some? ==> e.recordKey.value == key)
                     && fee <= e.tolerance && e.blockhashLive != Some(false))
            && (Inspect(env, digest, tx, e).Success? ==>
                  var i := Inspect(env, digest, tx, e).value;
                  && i.key == key && i.payee == payee && i.worstFee == fee
                  && i.staticDebit == e.quoted + fee && i.ceiling == e.quoted + e.tolerance)
  {
    var msg := ClaimMessage(env, e.payer, e.name, key, e.quoted, payee, coSigner);
    var tx := ClaimTx(msg, coSigner, coSignature);
    SlotsOfBuilt(env, e, key, payee, coSigner);
    SignersOfBuilt(env, e, key, payee, coSigner, coSignature);
    GoodBuilt(env, e, key, payee, coSigner);
    FreeOfBudget(env, msg);
    hide Inspect, SignersDeclared, GoodList, WorstPriority, EncodeClaim, SlotsOfClaim;
    AcceptanceIsExact(env, digest, tx, e);
    if Inspect(env, digest, tx, e).Success? {
      EncodedOnce(e, key, Inspect(env, digest, tx, e).value.key);
    }
  }
}
