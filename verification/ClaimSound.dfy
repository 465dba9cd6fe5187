/** What a passed claim inspection means: exactly which instruction lists pass, what executing the
    signed message does, and how the charge against the spend limits compares with what leaves. */
module ClaimSound {
  import opened Wrappers
  import opened Wire
  import opened Runtime
  import opened Claim

  // ---- acceptance, declaratively ----

  predicate IsClaim(env: Env, msg: Message, ix: Instr) {
    ix.program < |msg.keys| && msg.keys[ix.program] == env.registry
  }

  ghost predicate GoodClaim(env: Env, msg: Message, e: Expect, ix: Instr) {
    && InRange(msg, ix) && IsClaim(env, msg, ix)
    && |e.name| <= MAX_NAME && 0 <= e.quoted < U64_LIMIT
    && (exists key: Bytes :: |key| == 32 && (e.recordKey.Some? ==> key == e.recordKey.value)
                             && ix.data == EncodeClaim(e.name, key, e.quoted))
    && SlotsOfClaim(env, msg, ix, e)
  }

  /** The header lists writable signers, read-only signers, writable others and read-only others, in this
      order: is the account at `index` in one of the two writable ranges? */
  predicate InWritableRange(msg: Message, index: nat) {
    || index < msg.signers - msg.readonlySigned
    || msg.signers <= index < |msg.keys| - msg.readonlyUnsigned
  }

  /** Payer, authority, record, config, treasury, system program, each in its slot: the payer is the first
      account of the transaction, payer and record are writable, the authority signs, and the treasury is
      the pinned one, if one is pinned. */
  predicate SlotsOfClaim(env: Env, msg: Message, ix: Instr, e: Expect) {
    && |ix.accounts| == 6
    && (forall i :: 0 <= i < 6 ==> ix.accounts[i] < |msg.keys|)
    && ix.accounts[0] == 0 && msg.keys[0] == e.payer && InWritableRange(msg, 0)
    && ix.accounts[1] < msg.signers
    && msg.keys[ix.accounts[2]] == env.pda([ALIAS_SEED, e.name], env.registry) && InWritableRange(msg, ix.accounts[2])
    && msg.keys[ix.accounts[3]] == env.pda([CONFIG_SEED], env.registry)
    && (e.treasury.Some? ==> msg.keys[ix.accounts[4]] == e.treasury.value)
    && msg.keys[ix.accounts[5]] == env.system
  }

  lemma SlotsAreInPlace(env: Env, msg: Message, ix: Instr, e: Expect)
    requires InRange(msg, ix)
    ensures AccountsInPlace(env, msg, ix, e) <==> SlotsOfClaim(env, msg, ix, e)
  {
    assert forall i :: 0 <= i < |ix.accounts| ==> ix.accounts[i] in ix.accounts;
  }

  predicate GoodBudget(env: Env, msg: Message, ix: Instr) {
    && IsBudget(env, msg, ix) && ix.accounts == [] && |ix.data| > 0
    && |ix.data| == (if ix.data[0] == CB_PRICE then 9 else 5)
    && (ix.data[0] == CB_LIMIT || ix.data[0] == CB_PRICE || ix.data[0] == CB_HEAP || ix.data[0] == CB_DATA_SIZE)
  }

  /** Claims and well-formed budget instructions only: at most one claim, no budget operation twice. */
  ghost predicate GoodList(env: Env, msg: Message, e: Expect, n: nat)
    requires n <= |msg.instrs|
  {
    && (forall i :: 0 <= i < n ==> GoodClaim(env, msg, e, msg.instrs[i]) || GoodBudget(env, msg, msg.instrs[i]))
    && (forall i, j :: 0 <= i < j < n ==> !(IsClaim(env, msg, msg.instrs[i]) && IsClaim(env, msg, msg.instrs[j])))
    && (forall i, j :: 0 <= i < j < n && GoodBudget(env, msg, msg.instrs[i]) && GoodBudget(env, msg, msg.instrs[j])
                       ==> msg.instrs[i].data[0] != msg.instrs[j].data[0])
  }

  // ---- what the scan has collected after `n` good instructions ----

  ghost predicate TagsSeen(env: Env, msg: Message, n: nat, tags: set<byte>)
    requires n <= |msg.instrs|
  {
    && (forall i :: 0 <= i < n && GoodBudget(env, msg, msg.instrs[i]) ==> msg.instrs[i].data[0] in tags)
    && (forall t :: t in tags ==> exists i :: 0 <= i < n && GoodBudget(env, msg, msg.instrs[i]) && msg.instrs[i].data[0] == t)
  }

  ghost predicate ClaimSeen(env: Env, msg: Message, e: Expect, n: nat, s: Scan)
    requires n <= |msg.instrs|
  {
    && s.claims <= 1
    && (s.claims == 0 ==> forall i :: 0 <= i < n ==> !IsClaim(env, msg, msg.instrs[i]))
    && (s.claims == 1 ==> exists c :: 0 <= c < n && IsClaim(env, msg, msg.instrs[c])
                                      && DecodeClaim(msg.instrs[c].data, e) == Some(s.key)
                                      && PaidBy(msg, msg.instrs[c]) == s.payee)
  }

  /** The account in the treasury slot of a claim. */
  function PaidBy(msg: Message, ix: Instr): Pubkey {
    if |ix.accounts| > 4 && ix.accounts[4] < |msg.keys| then msg.keys[ix.accounts[4]] else []
  }

  ghost predicate PricesSeen(env: Env, msg: Message, n: nat, s: Scan)
    requires n <= |msg.instrs|
  {
    && s.limit == (match FindBudget(env, msg, CB_LIMIT, n)
                   case Some(i) => Some(U32(msg.instrs[i].data, 1))
                   case None => None)
    && s.micro == (match FindBudget(env, msg, CB_PRICE, n)
                   case Some(i) => U64(msg.instrs[i].data, 1)
                   case None => 0)
  }

  ghost predicate Collected(env: Env, msg: Message, e: Expect, n: nat, s: Scan)
    requires n <= |msg.instrs|
  {
    && s.others == s.claims == CountOthers(env, msg, n)
    && |s.tags| + s.claims == n
    && s.tags <= {CB_HEAP, CB_LIMIT, CB_PRICE, CB_DATA_SIZE}
    && TagsSeen(env, msg, n, s.tags)
    && ClaimSeen(env, msg, e, n, s)
    && PricesSeen(env, msg, n, s)
  }

  /** The claim branch of the scan takes exactly the good claims. */
  lemma ClaimBranch(env: Env, msg: Message, e: Expect, s: Scan, ix: Instr)
    requires Registrable(e.name) && IsClaim(env, msg, ix)
    ensures ScanStep(env, msg, e, s, ix).Some? <==> s.claims == 0 && GoodClaim(env, msg, e, ix)
  {
    DecodeIsExact(ix.data, e);
    if InRange(msg, ix) {
      SlotsAreInPlace(env, msg, ix, e);
    }
    hide DecodeClaim, LE, Pack, AccountsInPlace, SlotsOfClaim;
  }

  lemma BudgetBranch(env: Env, msg: Message, e: Expect, s: Scan, ix: Instr)
    requires env.registry != env.budget && IsBudget(env, msg, ix)
    ensures ScanStep(env, msg, e, s, ix).Some? <==> GoodBudget(env, msg, ix) && ix.data[0] !in s.tags
    ensures !IsClaim(env, msg, ix) && !GoodClaim(env, msg, e, ix)
  {
  }

  /** The scan survives exactly the good lists, and then knows what they contain. */
  lemma {:induction false} ScanIsExact(env: Env, msg: Message, e: Expect, n: nat)
    requires ProgramsDiffer(env) && Registrable(e.name) && n <= |msg.instrs|
    ensures Scanned(env, msg, e, n).Some? <==> GoodList(env, msg, e, n)
    ensures Scanned(env, msg, e, n).Some? ==> Collected(env, msg, e, n, Scanned(env, msg, e, n).value)
  {
    if n > 0 {
      hide GoodClaim, GoodBudget, ScanStep, TagsSeen, ClaimSeen, PricesSeen;
      ScanIsExact(env, msg, e, n - 1);
      if Scanned(env, msg, e, n - 1).Some? {
        ScanStepIsExact(env, msg, e, n, Scanned(env, msg, e, n - 1).value);
      }
    }
  }

  lemma ScanStepIsExact(env: Env, msg: Message, e: Expect, n: nat, s: Scan)
    requires ProgramsDiffer(env) && Registrable(e.name) && 0 < n <= |msg.instrs|
    requires GoodList(env, msg, e, n - 1) && Collected(env, msg, e, n - 1, s)
    ensures ScanStep(env, msg, e, s, msg.instrs[n - 1]).Some? <==> GoodList(env, msg, e, n)
    ensures ScanStep(env, msg, e, s, msg.instrs[n - 1]).Some?
            ==> Collected(env, msg, e, n, ScanStep(env, msg, e, s, msg.instrs[n - 1]).value)
  {
    var ix := msg.instrs[n - 1];
    if IsClaim(env, msg, ix) {
      ClaimStep(env, msg, e, n, s);
    } else if IsBudget(env, msg, ix) {
      BudgetStep(env, msg, e, n, s);
    }
  }

  lemma ClaimStep(env: Env, msg: Message, e: Expect, n: nat, s: Scan)
    requires ProgramsDiffer(env) && Registrable(e.name) && 0 < n <= |msg.instrs| && IsClaim(env, msg, msg.instrs[n - 1])
    requires GoodList(env, msg, e, n - 1) && Collected(env, msg, e, n - 1, s)
    ensures ScanStep(env, msg, e, s, msg.instrs[n - 1]).Some? <==> GoodList(env, msg, e, n)
    ensures ScanStep(env, msg, e, s, msg.instrs[n - 1]).Some?
            ==> Collected(env, msg, e, n, ScanStep(env, msg, e, s, msg.instrs[n - 1]).value)
  {
    hide DecodeClaim, AccountsInPlace, EncodeClaim, LE, GoodClaim, PaidBy, Accounts;
    ClaimBranch(env, msg, e, s, msg.instrs[n - 1]);
    if ScanStep(env, msg, e, s, msg.instrs[n - 1]).Some? {
      ClaimStepped(env, msg, e, s, msg.instrs[n - 1]);
    }
  }

  lemma ClaimStepped(env: Env, msg: Message, e: Expect, s: Scan, ix: Instr)
    requires IsClaim(env, msg, ix) && ScanStep(env, msg, e, s, ix).Some?
    ensures ScanStep(env, msg, e, s, ix).value.payee == PaidBy(msg, ix)
  {
    hide DecodeClaim;
    assert |ix.accounts| == 6 && ix.accounts[4] in ix.accounts;
  }

  lemma BudgetStep(env: Env, msg: Message, e: Expect, n: nat, s: Scan)
    requires ProgramsDiffer(env) && Registrable(e.name) && 0 < n <= |msg.instrs| && IsBudget(env, msg, msg.instrs[n - 1])
    requires GoodList(env, msg, e, n - 1) && Collected(env, msg, e, n - 1, s)
    ensures ScanStep(env, msg, e, s, msg.instrs[n - 1]).Some? <==> GoodList(env, msg, e, n)
    ensures ScanStep(env, msg, e, s, msg.instrs[n - 1]).Some?
            ==> Collected(env, msg, e, n, ScanStep(env, msg, e, s, msg.instrs[n - 1]).value)
  {
    hide DecodeClaim, AccountsInPlace, EncodeClaim, LE, GoodClaim, GoodBudget, FindBudget, PricesSeen, ScanStep, GoodList, TagsSeen;
    var ix := msg.instrs[n - 1];
    BudgetBranch(env, msg, e, s, ix);
    FreshTag(env, msg, e, n, s.tags);
    if ScanStep(env, msg, e, s, ix).Some? {
      BudgetStepped(env, msg, e, s, ix);
      MoreTags(env, msg, n, s.tags);
      BudgetPrices(env, msg, e, n, s);
    }
  }

  lemma BudgetStepped(env: Env, msg: Message, e: Expect, s: Scan, ix: Instr)
    requires env.registry != env.budget && IsBudget(env, msg, ix) && ScanStep(env, msg, e, s, ix).Some?
    ensures var next := ScanStep(env, msg, e, s, ix).value;
            && next.claims == s.claims && next.others == s.others && next.key == s.key && next.payee == s.payee
            && |ix.data| > 0 && ix.data[0] !in s.tags && next.tags == s.tags + {ix.data[0]}
            && ix.data[0] in {CB_HEAP, CB_LIMIT, CB_PRICE, CB_DATA_SIZE}
  {
  }

  lemma FreshTag(env: Env, msg: Message, e: Expect, n: nat, tags: set<byte>)
    requires 0 < n <= |msg.instrs| && GoodList(env, msg, e, n - 1) && TagsSeen(env, msg, n - 1, tags)
    requires !IsClaim(env, msg, msg.instrs[n - 1])
    ensures GoodList(env, msg, e, n)
       <==> GoodBudget(env, msg, msg.instrs[n - 1]) && msg.instrs[n - 1].data[0] !in tags
  {
    hide GoodClaim;
    IsClaimOfGood(env, msg, e, msg.instrs[n - 1]);
  }

  lemma IsClaimOfGood(env: Env, msg: Message, e: Expect, ix: Instr)
    ensures GoodClaim(env, msg, e, ix) ==> IsClaim(env, msg, ix)
  {
  }

  lemma MoreTags(env: Env, msg: Message, n: nat, tags: set<byte>)
    requires 0 < n <= |msg.instrs| && TagsSeen(env, msg, n - 1, tags) && GoodBudget(env, msg, msg.instrs[n - 1])
    ensures TagsSeen(env, msg, n, tags + {msg.instrs[n - 1].data[0]})
  {
    hide GoodBudget;
    BudgetHasData(env, msg, msg.instrs[n - 1]);
  }

  lemma BudgetHasData(env: Env, msg: Message, ix: Instr)
    requires GoodBudget(env, msg, ix)
    ensures |ix.data| > 0 && BudgetParses(ix.data)
  {
  }

  lemma BudgetPrices(env: Env, msg: Message, e: Expect, n: nat, s: Scan)
    requires env.registry != env.budget && 0 < n <= |msg.instrs| && IsBudget(env, msg, msg.instrs[n - 1])
    requires PricesSeen(env, msg, n - 1, s)
    requires ScanStep(env, msg, e, s, msg.instrs[n - 1]).Some? && msg.instrs[n - 1].data[0] !in s.tags
    ensures PricesSeen(env, msg, n, ScanStep(env, msg, e, s, msg.instrs[n - 1]).value)
  {
    hide LE;
  }

  // ---- the signers ----

  /** The transaction is paid by us, and we appear nowhere else in it; it needs our signature, which is
      still missing, and at most one more, which is there. */
  predicate SignersDeclared(tx: Tx, e: Expect) {
    var empty: Signature := seq(64, _ => 0);
    && |tx.msg.keys| > 0 && tx.msg.keys[0] == e.payer
    && (forall i :: 0 < i < |tx.msg.keys| ==> tx.msg.keys[i] != e.payer)
    && (tx.msg.signers == 1 || tx.msg.signers == 2) && |tx.signatures| >= tx.msg.signers
    && tx.signatures[0] == empty && (tx.msg.signers == 2 ==> tx.signatures[1] != empty)
  }

  lemma EmptySlotIs(sig: Signature)
    ensures var empty: Signature := seq(64, _ => 0); IsEmptySlot(sig) <==> sig == empty
  {
  }

  lemma {:induction false} CountsOthers(keys: seq<Pubkey>, k: Pubkey)
    requires |keys| > 0 && keys[0] == k
    ensures CountKey(keys, k) >= 1
    ensures CountKey(keys, k) == 1 <==> forall i :: 0 < i < |keys| ==> keys[i] != k
  {
    if |keys| == 1 {
      assert keys[..0] == [];
    } else {
      CountsOthers(keys[..|keys| - 1], k);
    }
  }

  lemma SignersAreDeclared(tx: Tx, e: Expect)
    ensures SignersAsExpected(tx, e) <==> SignersDeclared(tx, e)
  {
    if |tx.msg.keys| > 0 && tx.msg.keys[0] == e.payer {
      CountsOthers(tx.msg.keys, e.payer);
    }
    if |tx.signatures| > 0 {
      EmptySlotIs(tx.signatures[0]);
    }
    if |tx.signatures| > 1 {
      EmptySlotIs(tx.signatures[1]);
    }
    hide IsEmptySlot, CountKey;
  }

  // ---- the verdict ----

  /** The most the fee market can take for this message: the declared unit limit, or the default for
      the single instruction that is not a budget one, at the declared price. */
  function WorstPriority(env: Env, msg: Message): nat {
    PriorityFee(match FindBudget(env, msg, CB_LIMIT, |msg.instrs|)
                case Some(i) => U32(msg.instrs[i].data, 1)
                case None => DEFAULT_CU_PER_IX,
                UnitPrice(env, msg))
  }

  ghost predicate HasClaim(env: Env, msg: Message) {
    exists c :: 0 <= c < |msg.instrs| && IsClaim(env, msg, msg.instrs[c])
  }

  /** Acceptance is exact. For a registrable name, a transaction passes if and only if it has the
      expected signers, is made of exactly one good claim and otherwise distinct, well-formed budget
      instructions, and its worst-case fee fits the tolerance and its priority part the fee cap. */
  lemma AcceptanceIsExact(env: Env, digest: Message -> Bytes, tx: Tx, e: Expect)
    requires ProgramsDiffer(env) && Registrable(e.name)
    ensures Inspect(env, digest, tx, e).Success? <==>
              && SignersDeclared(tx, e) && |tx.msg.keys| <= 32
              && GoodList(env, tx.msg, e, |tx.msg.instrs|) && HasClaim(env, tx.msg)
              && WorstPriority(env, tx.msg) <= e.feeCap
              && LAMPORTS_PER_SIGNATURE * tx.msg.signers + WorstPriority(env, tx.msg) <= e.tolerance
              && e.blockhashLive != Some(false)
    ensures Inspect(env, digest, tx, e).Success? ==>
              var i := Inspect(env, digest, tx, e).value;
              && |tx.msg.instrs| <= 5 && 0 <= e.quoted < U64_LIMIT
              && i.worstFee == LAMPORTS_PER_SIGNATURE * tx.msg.signers + WorstPriority(env, tx.msg)
              && i.staticDebit == e.quoted + i.worstFee <= i.ceiling == e.quoted + e.tolerance
              && i.payer == e.payer && i.digest == digest(tx.msg) && |i.key| == 32
              && i.treasury == e.treasury && (e.treasury.Some? ==> i.payee == e.treasury.value)
              && exists c :: 0 <= c < |tx.msg.instrs| && IsClaim(env, tx.msg, tx.msg.instrs[c])
                             && tx.msg.instrs[c].data == EncodeClaim(e.name, i.key, e.quoted)
                             && PaidBy(tx.msg, tx.msg.instrs[c]) == i.payee
  {
    SignersAreDeclared(tx, e);
    hide GoodList, Scanned, SignersAsExpected, SignersDeclared, PriorityFee, FindBudget, DecodeClaim, EncodeClaim, LE;
    var n := |tx.msg.instrs|;
    ScanIsExact(env, tx.msg, e, n);
    if GoodList(env, tx.msg, e, n) {
      var s := Scanned(env, tx.msg, e, n).value;
      assert s.claims == 1 <==> HasClaim(env, tx.msg);
      AtMostFour(s.tags);
      if s.claims == 1 {
        var c :| 0 <= c < n && IsClaim(env, tx.msg, tx.msg.instrs[c]) && DecodeClaim(tx.msg.instrs[c].data, e) == Some(s.key)
                 && PaidBy(tx.msg, tx.msg.instrs[c]) == s.payee;
        DecodedIsEncoded(tx.msg.instrs[c].data, e);
        PaysTreasury(env, tx.msg, e, c);
      }
    }
  }

  lemma PaysTreasury(env: Env, msg: Message, e: Expect, c: nat)
    requires ProgramsDiffer(env) && GoodList(env, msg, e, |msg.instrs|) && c < |msg.instrs| && IsClaim(env, msg, msg.instrs[c])
    ensures e.treasury.Some? ==> PaidBy(msg, msg.instrs[c]) == e.treasury.value
  {
    hide EncodeClaim;
    assert GoodClaim(env, msg, e, msg.instrs[c]);
  }

  lemma AtMostFour(tags: set<byte>)
    requires tags <= {CB_HEAP, CB_LIMIT, CB_PRICE, CB_DATA_SIZE}
    ensures |tags| <= 4
  {
    var all: set<byte> := {CB_HEAP, CB_LIMIT, CB_PRICE, CB_DATA_SIZE};
    assert |all| == 4;
    SubsetIsSmaller(tags, all);
  }

  lemma {:induction false} SubsetIsSmaller(a: set<byte>, b: set<byte>)
    requires a <= b
    ensures |a| <= |b|
  {
    if a != {} {
      var x :| x in a;
      SubsetIsSmaller(a - {x}, b - {x});
    }
  }

  // ---- soundness against execution ----

  lemma PriorityFeeGrows(few: nat, many: nat, micro: nat)
    requires few <= many
    ensures PriorityFee(few, micro) <= PriorityFee(many, micro)
  {
    assert few * micro <= many * micro;
  }

  lemma AcceptedIsGood(env: Env, digest: Message -> Bytes, tx: Tx, e: Expect, c: nat)
    requires ProgramsDiffer(env) && Registrable(e.name) && Inspect(env, digest, tx, e).Success?
    requires c < |tx.msg.instrs| && IsClaim(env, tx.msg, tx.msg.instrs[c])
    ensures GoodClaim(env, tx.msg, e, tx.msg.instrs[c])
    ensures forall i :: 0 <= i < |tx.msg.instrs| && i != c ==> GoodBudget(env, tx.msg, tx.msg.instrs[i])
    ensures Sane(tx.msg) && BudgetValid(env, tx.msg) && !LeadsWithNonce(env, tx.msg)
  {
    hide AccountsInPlace, EncodeClaim, WorstPriority;
    AcceptanceIsExact(env, digest, tx, e);
  }

  /** The runtime never takes more than the fee the inspection reported. */
  lemma FeeIsBounded(env: Env, digest: Message -> Bytes, tx: Tx, e: Expect)
    requires ProgramsDiffer(env) && Registrable(e.name) && Inspect(env, digest, tx, e).Success?
    ensures RuntimeFee(env, tx.msg) <= Inspect(env, digest, tx, e).value.worstFee
  {
    hide GoodList, Scanned, SignersDeclared, PriorityFee, LE, Inspect;
    AcceptanceIsExact(env, digest, tx, e);
    ScanIsExact(env, tx.msg, e, |tx.msg.instrs|);
    PriorityFeeGrows(UnitLimit(env, tx.msg),
                     match FindBudget(env, tx.msg, CB_LIMIT, |tx.msg.instrs|)
                     case Some(i) => U32(tx.msg.instrs[i].data, 1)
                     case None => DEFAULT_CU_PER_IX,
                     UnitPrice(env, tx.msg));
  }

  /** Budget instructions have no effect, so a list with one other instruction runs like that one. */
  lemma {:induction false} OnlyOneRuns(env: Env, other: Other, msg: Message, instrs: seq<Instr>, c: int, b: Bank)
    requires forall ix :: ix in instrs ==> InRange(msg, ix)
    requires c < |instrs| && forall i :: 0 <= i < |instrs| && i != c ==> IsBudget(env, msg, instrs[i])
    ensures c < 0 ==> RunAll(env, other, msg, instrs, b) == Some(b)
    ensures c >= 0 ==> RunAll(env, other, msg, instrs, b) == RunIx(env, other, msg, instrs[c], b)
  {
    hide RunSystem, RunSettlement, RunClaim;
    if instrs != [] {
      var r := RunIx(env, other, msg, instrs[0], b);
      if r.Some? {
        OnlyOneRuns(env, other, msg, instrs[1..], c - 1, r.value);
      }
    }
  }

  /** How the runtime reads the data of an encoded claim. */
  lemma ClaimFields(name: Bytes, key: Bytes, price: nat)
    requires |name| <= MAX_NAME && |key| == 32 && price < U64_LIMIT
    ensures var d, n := EncodeClaim(name, key, price), |name|;
            && |d| == 42 + n && d[0] == DISCRIMINATOR && d[1] == n
            && d[2..2 + n] == name && d[2 + n..34 + n] == key && U64(d, 34 + n) == price
  {
    EncodedFields(name, key, price);
    WidthLimits();
    UnpackPack(price, 8);
    hide EncodeClaim, Pack, LE;
  }

  /** The claim instruction itself, on any state: it fails, or moves the price and the rent and
      records the payer as owner under the inspected key. */
  lemma ClaimRuns(env: Env, other: Other, msg: Message, ix: Instr, e: Expect, key: Bytes, b: Bank)
    requires ProgramsDiffer(env) && GoodClaim(env, msg, e, ix) && msg.signers > 0 && |key| == 32
    requires ix.data == EncodeClaim(e.name, key, e.quoted)
    ensures var r := RunIx(env, other, msg, ix, b);
            r.None? || r == Some(Move(Move(b, e.payer, PaidBy(msg, ix), e.quoted), e.payer, AliasPda(env, e.name), env.recordRent)
                                 .(names := b.names[AliasPda(env, e.name) := Record(e.payer, key)]))
  {
    ClaimFields(e.name, key, e.quoted);
    hide EncodeClaim, U64, Move, RunSystem, RunSettlement, AliasPda, ConfigPda, Balance, IsWritable;
  }

  /** From `before` to `after` the payer lost the fee and, if the claim went through, the quoted price
      and the rent of the record; the reported payee and the record received exactly those; the name points
      at the payer and the inspected key; and nothing else changed. */
  ghost predicate ClaimsOnly(env: Env, i: Inspection, fee: nat, before: Bank, after: Bank, claimed: bool) {
    var record := AliasPda(env, i.name);
    var price, rent := if claimed then i.price else 0, if claimed then env.recordRent else 0;
    && (forall k :: Balance(after, k)
                 == Balance(before, k) - (if k == i.payer then fee + price + rent else 0)
                    + (if k == i.payee then price else 0) + (if k == record then rent else 0))
    && after.nonces == before.nonces && after.escrows == before.escrows
    && after.names == if claimed then before.names[record := Record(i.payer, i.key)] else before.names
  }

  lemma ChargedEffect(env: Env, i: Inspection, fee: nat, before: Bank)
    ensures ClaimsOnly(env, i, fee, before, Credit(before, i.payer, -(fee as int)), false)
  {
  }

  lemma ClaimedEffect(env: Env, i: Inspection, fee: nat, before: Bank, charged: Bank, after: Bank)
    requires i.price >= 0 && charged == Credit(before, i.payer, -(fee as int))
    requires after == Move(Move(charged, i.payer, i.payee, i.price), i.payer, AliasPda(env, i.name), env.recordRent)
                      .(names := charged.names[AliasPda(env, i.name) := Record(i.payer, i.key)])
    ensures ClaimsOnly(env, i, fee, before, after, true)
  {
  }

  /** Processing changed nothing, took only a fee, or made exactly the claim that was inspected. */
  ghost predicate ClaimOutcome(env: Env, i: Inspection, fee: nat, before: Bank, outcome: Outcome) {
    match outcome
    case NotProcessed => true
    case FeeOnly(after) => ClaimsOnly(env, i, fee, before, after, false)
    case Executed(after) => ClaimsOnly(env, i, fee, before, after, true)
  }

  /** Soundness of the inspection: whatever message has the inspected digest (no two messages here share
      one), whatever other programs do and whatever the state is, processing it does nothing but what was
      inspected, and a pinned treasury is the one that is paid. The fee is at most the one the inspection reported. */
  lemma SignedClaimIsSound(env: Env, other: Other, digest: Message -> Bytes, tx: Tx, e: Expect, signed: Message, before: Bank)
    requires ProgramsDiffer(env) && Registrable(e.name)
    requires digest(signed) == digest(tx.msg) ==> signed == tx.msg
    requires Inspect(env, digest, tx, e).Success? && digest(signed) == Inspect(env, digest, tx, e).value.digest
    ensures RuntimeFee(env, signed) <= Inspect(env, digest, tx, e).value.worstFee <= e.tolerance
    ensures e.treasury.Some? ==> Inspect(env, digest, tx, e).value.payee == e.treasury.value
    ensures ClaimOutcome(env, Inspect(env, digest, tx, e).value, RuntimeFee(env, signed), before,
                         Process(env, other, signed, before))
  {
    hide GoodList, GoodClaim, GoodBudget, Scanned, WorstPriority, ClaimsOnly, RunIx, RunAll, RuntimeFee, Move, EncodeClaim;
    var i := Inspect(env, digest, tx, e).value;
    AcceptanceIsExact(env, digest, tx, e);
    FeeIsBounded(env, digest, tx, e);
    assert signed == tx.msg;
    var c: nat :| c < |signed.instrs| && IsClaim(env, signed, signed.instrs[c])
                  && signed.instrs[c].data == EncodeClaim(e.name, i.key, e.quoted)
                  && PaidBy(signed, signed.instrs[c]) == i.payee;
    AcceptedIsGood(env, digest, tx, e, c);
    var charged := Credit(before, e.payer, -(RuntimeFee(env, signed) as int));
    ProcessedClaim(env, other, signed, e, i, c, before, charged);
  }

  /** Every run of this message, on every state and beside any other programs, is a claim outcome. */
  ghost predicate OnlyClaims(env: Env, i: Inspection, msg: Message) {
    && RuntimeFee(env, msg) <= i.worstFee
    && forall other: Other, before: Bank ::
         ClaimOutcome(env, i, RuntimeFee(env, msg), before, Process(env, other, msg, before))
  }

  /** Raw bytes were taken as a claim, and this is the transaction they parse to. */
  predicate TakenAsClaim(env: Env, parse: Parser, digest: Message -> Bytes, raw: Bytes, e: Expect) {
    && Registrable(e.name) && IsLegacy(raw, CLAIM_GROUPS) && parse(raw).Some?
    && Inspect(env, digest, parse(raw).value, e).Success?
  }

  /** Inspecting what the server sent, and then signing `tx`, whichever transaction that is. A signature of
      ours appears only on a message that, when it is processed, makes the inspected claim and nothing else
      (the digest tells it from the inspected one); the other slots never change; and the transaction that
      was inspected is signed with the right key. */
  method InspectThenSign(env: Env, parse: Parser, digest: Message -> Bytes, raw: Bytes, e: Expect,
                         tx: Signable, key: Pubkey, signature: Signature)
    returns (ok: bool)
    requires ProgramsDiffer(env) && |tx.signatures| > 0
    modifies tx`signatures
    ensures tx.signatures == if ok then old(tx.signatures)[0 := signature] else old(tx.signatures)
    ensures ok ==> TakenAsClaim(env, parse, digest, raw, e) && key == e.payer
    ensures ok && e.treasury.Some? ==> Inspect(env, digest, parse(raw).value, e).value.payee == e.treasury.value
    ensures ok && (digest(tx.msg) == digest(parse(raw).value.msg) ==> tx.msg == parse(raw).value.msg)
            ==> OnlyClaims(env, Inspect(env, digest, parse(raw).value, e).value, tx.msg)
    ensures TakenAsClaim(env, parse, digest, raw, e) && tx.msg == parse(raw).value.msg && key == e.payer
            && digest(tx.msg) != []
            ==> ok
  {
    hide RuntimeFee, Process, ClaimOutcome;
    var r := InspectAliasClaim(env, parse, digest, raw, e);
    if r.Failure? {
      return false;
    }
    var inspected := parse(raw).value;
    AcceptanceIsExact(env, digest, inspected, e);
    hide Inspect, IsLegacy, Registrable, GoodList, WorstPriority, SignersDeclared;
    ok := tx.ApproveAndSign(r.value, digest, key, signature);
    if ok && tx.msg == inspected.msg {
      forall other: Other, before: Bank
        ensures RuntimeFee(env, tx.msg) <= r.value.worstFee
        ensures ClaimOutcome(env, r.value, RuntimeFee(env, tx.msg), before, Process(env, other, tx.msg, before))
      {
        SignedClaimIsSound(env, other, digest, inspected, e, tx.msg, before);
      }
      FeeIsBounded(env, digest, inspected, e);
    }
  }

  lemma ProcessedClaim(env: Env, other: Other, msg: Message, e: Expect, i: Inspection, c: nat, before: Bank, charged: Bank)
    requires ProgramsDiffer(env) && Sane(msg) && c < |msg.instrs| && GoodClaim(env, msg, e, msg.instrs[c])
    requires forall j :: 0 <= j < |msg.instrs| && j != c ==> GoodBudget(env, msg, msg.instrs[j])
    requires i.payer == e.payer && i.name == e.name && i.price == e.quoted && |i.key| == 32
    requires msg.instrs[c].data == EncodeClaim(e.name, i.key, e.quoted) && PaidBy(msg, msg.instrs[c]) == i.payee
    requires charged == Credit(before, e.payer, -(RuntimeFee(env, msg) as int))
    ensures ClaimsOnly(env, i, RuntimeFee(env, msg), before, charged, false)
    ensures var r := RunAll(env, other, msg, msg.instrs, charged);
            r.Some? ==> ClaimsOnly(env, i, RuntimeFee(env, msg), before, r.value, true)
  {
    ChargedEffect(env, i, RuntimeFee(env, msg), before);
    hide RunIx, RunAll, RuntimeFee, EncodeClaim, GoodBudget, IsBudget, AccountsInPlace, ClaimsOnly, Move, Credit, AliasPda;
    OnlyClaimRuns(env, other, msg, c, charged);
    ClaimRuns(env, other, msg, msg.instrs[c], e, i.key, charged);
    var r := RunAll(env, other, msg, msg.instrs, charged);
    if r.Some? {
      ClaimedEffect(env, i, RuntimeFee(env, msg), before, charged, r.value);
    }
  }

  lemma OnlyClaimRuns(env: Env, other: Other, msg: Message, c: nat, b: Bank)
    requires Sane(msg) && c < |msg.instrs|
    requires forall j :: 0 <= j < |msg.instrs| && j != c ==> GoodBudget(env, msg, msg.instrs[j])
    ensures InRange(msg, msg.instrs[c])
    ensures RunAll(env, other, msg, msg.instrs, b) == RunIx(env, other, msg, msg.instrs[c], b)
  {
    hide RunIx, RunAll, GoodBudget, IsBudget, InRange;
    forall j | 0 <= j < |msg.instrs| && j != c ensures IsBudget(env, msg, msg.instrs[j]) {
      BudgetIsBudget(env, msg, msg.instrs[j]);
    }
    OnlyOneRuns(env, other, msg, msg.instrs, c, b);
  }

  lemma BudgetIsBudget(env: Env, msg: Message, ix: Instr)
    requires GoodBudget(env, msg, ix)
    ensures IsBudget(env, msg, ix)
  {
  }

  // ---- what is charged against the spend limits ----

  /** The charge sandwich: for an accepted claim, whatever simulation said, the charge is at least the
      quote, the static debit and the simulated debit, and at most the ceiling. Without a simulation it
      is the ceiling, so it is never below the charge of any simulated run. */
  lemma ChargeSandwich(env: Env, digest: Message -> Bytes, tx: Tx, e: Expect, sim: Simulation, required: bool)
    requires ProgramsDiffer(env) && Registrable(e.name) && Inspect(env, digest, tx, e).Success?
    requires BoundedDebit(Inspect(env, digest, tx, e).value, sim, required).Success?
    ensures var i := Inspect(env, digest, tx, e).value;
            var measured := BoundedDebit(i, sim, required).value;
            && e.quoted <= i.staticDebit <= SpendCharge(e.quoted, i, measured) <= i.ceiling
            && (measured.Some? ==> measured.value <= SpendCharge(e.quoted, i, measured)
                                   && (SpendCharge(e.quoted, i, measured) == i.staticDebit
                                       || SpendCharge(e.quoted, i, measured) == measured.value))
            && (measured.None? ==> SpendCharge(e.quoted, i, measured) == i.ceiling)
  {
    AcceptanceIsExact(env, digest, tx, e);
    hide Inspect;
  }

  /** A simulation lets the claim go on if and only if it measured at most the ceiling, or gave no answer
      where none is required. */
  lemma SimulationBounds(i: Inspection, sim: Simulation, required: bool, measured: Option<int>)
    ensures BoundedDebit(i, sim, required) == Success(measured)
       <==> || (measured.Some? && sim == Measured(measured.value) && measured.value <= i.ceiling)
            || (measured.None? && sim == NoAnswer && !required)
  {
  }

  /** What a claim that goes through takes from the payer, in all. */
  function RealDebit(env: Env, msg: Message, e: Expect): int {
    e.quoted + RuntimeFee(env, msg) + env.recordRent
  }

  lemma FeeIsPositive(env: Env, digest: Message -> Bytes, tx: Tx, e: Expect)
    requires ProgramsDiffer(env) && Registrable(e.name) && Inspect(env, digest, tx, e).Success?
    ensures 0 < RuntimeFee(env, tx.msg) <= Inspect(env, digest, tx, e).value.worstFee
    ensures (FindBudget(env, tx.msg, CB_LIMIT, |tx.msg.instrs|).Some? ==>
               U32(tx.msg.instrs[FindBudget(env, tx.msg, CB_LIMIT, |tx.msg.instrs|).value].data, 1) <= MAX_CU_LIMIT)
            ==> RuntimeFee(env, tx.msg) == Inspect(env, digest, tx, e).value.worstFee
  {
    hide GoodList, Scanned, SignersDeclared, PriorityFee, LE, Inspect, GoodClaim;
    FeeIsBounded(env, digest, tx, e);
    AcceptanceIsExact(env, digest, tx, e);
    ScanIsExact(env, tx.msg, e, |tx.msg.instrs|);
    SignersArePositive(tx, e);
  }

  lemma SignersArePositive(tx: Tx, e: Expect)
    requires SignersDeclared(tx, e)
    ensures tx.msg.signers >= 1
  {
  }

  /** Simulation sees the price and the rent but no fee, and the static debit sees the price and the
      worst-case fee but no rent, so the larger of the two is short of the real debit unless the worst-case
      fee leaves room for the rent above the real fee. A unit limit the runtime honours leaves no such room,
      so then the charge covers the claim if and only if the record is free. The shortfall is never more
      than the fee. Charged without a simulation, the claim is covered if and only if the tolerance has room
      for fee and rent. */
  lemma ChargeCovers(env: Env, digest: Message -> Bytes, tx: Tx, e: Expect)
    requires ProgramsDiffer(env) && Registrable(e.name) && Inspect(env, digest, tx, e).Success?
    ensures var i := Inspect(env, digest, tx, e).value;
            var fee := RuntimeFee(env, tx.msg);
            var limit := FindBudget(env, tx.msg, CB_LIMIT, |tx.msg.instrs|);
            var charge := SpendCharge(e.quoted, i, Some(e.quoted + env.recordRent));
            && (charge >= RealDebit(env, tx.msg, e) <==> env.recordRent <= i.worstFee - fee)
            && (limit.None? || U32(tx.msg.instrs[limit.value].data, 1) <= MAX_CU_LIMIT ==>
                  (charge >= RealDebit(env, tx.msg, e) <==> env.recordRent == 0))
            && RealDebit(env, tx.msg, e) - charge <= fee
            && (SpendCharge(e.quoted, i, None) >= RealDebit(env, tx.msg, e) <==> fee + env.recordRent <= e.tolerance)
  {
    AcceptanceIsExact(env, digest, tx, e);
    FeeIsPositive(env, digest, tx, e);
    hide Inspect, RuntimeFee, LE;
  }
}
