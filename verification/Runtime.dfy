/** What executing a transaction does, written apart from both verifiers: the fee the runtime takes,
    system transfers and nonce advances, the settlement deposit and the alias claim. Every other
    instruction is given to `other`, a behaviour about which nothing is known. */
module Runtime {
  import opened Wrappers
  import opened Wire

  const LAMPORTS_PER_SIGNATURE := 5_000
  const DEFAULT_CU_PER_IX := 200_000
  const MAX_CU_LIMIT := 1_400_000
  const MICRO := 1_000_000
  const RENT_EXEMPT_LAMPORTS := 1_454_640
  const DEPOSIT_LEN := 81

  const SYS_TRANSFER := 2
  const SYS_ADVANCE_NONCE := 4

  const CB_REQUEST_UNITS: byte := 0
  const CB_HEAP: byte := 1
  const CB_LIMIT: byte := 2
  const CB_PRICE: byte := 3
  const CB_DATA_SIZE: byte := 4

  /** The fixed programs, and the derivations nothing is assumed about. */
  datatype Env = Env(
    system: Pubkey,
    budget: Pubkey,
    settlement: Pubkey,
    registry: Pubkey,
    recordRent: nat,
    pda: (seq<Bytes>, Pubkey) -> Pubkey,
    sha256: Bytes -> Bytes)

  const ESCROW_SEED: Bytes := [101, 115, 99, 114, 111, 119]
  const ALIAS_SEED: Bytes := [97, 108, 105, 97, 115]
  const CONFIG_SEED: Bytes := [99, 111, 110, 102, 105, 103]

  function EscrowPda(env: Env, id: Bytes): Pubkey {
    env.pda([ESCROW_SEED, id], env.settlement)
  }

  function AliasPda(env: Env, name: Bytes): Pubkey {
    env.pda([ALIAS_SEED, name], env.registry)
  }

  function ConfigPda(env: Env): Pubkey {
    env.pda([CONFIG_SEED], env.registry)
  }

  ghost predicate ProgramsDiffer(env: Env) {
    && env.system != env.budget && env.settlement != env.system && env.settlement != env.budget
    && env.registry != env.system && env.registry != env.budget && env.registry != env.settlement
  }

  // ---- state ----

  datatype Escrow = Escrow(depositor: Pubkey, amount: nat, commitment: Bytes, unlock: int)

  datatype Record = Record(owner: Pubkey, agent: Bytes)

  datatype Bank = Bank(
    balances: map<Pubkey, int>,
    nonces: map<Pubkey, nat>,
    escrows: map<Pubkey, Escrow>,
    names: map<Pubkey, Record>)

  function Balance(b: Bank, k: Pubkey): int {
    if k in b.balances then b.balances[k] else 0
  }

  function NonceUses(b: Bank, k: Pubkey): nat {
    if k in b.nonces then b.nonces[k] else 0
  }

  function Credit(b: Bank, k: Pubkey, lamports: int): Bank {
    b.(balances := b.balances[k := Balance(b, k) + lamports])
  }

  function Move(b: Bank, from: Pubkey, to: Pubkey, lamports: nat): Bank {
    Credit(Credit(b, from, -(lamports as int)), to, lamports)
  }

  function AdvanceNonce(b: Bank, k: Pubkey): Bank {
    b.(nonces := b.nonces[k := NonceUses(b, k) + 1])
  }

  // ---- instructions ----

  /** Program and accounts of an instruction, once its indices are known to be in range. */
  predicate InRange(msg: Message, ix: Instr) {
    ix.program < |msg.keys| && forall i :: i in ix.accounts ==> i < |msg.keys|
  }

  predicate Sane(msg: Message) {
    && |msg.keys| > 0 && msg.signers > 0
    && forall ix :: ix in msg.instrs ==> InRange(msg, ix)
  }

  function Accounts(msg: Message, ix: Instr): seq<Pubkey>
    requires InRange(msg, ix)
  {
    seq(|ix.accounts|, i requires 0 <= i < |ix.accounts| => assert ix.accounts[i] in ix.accounts; msg.keys[ix.accounts[i]])
  }

  /** Behaviour of everything that is not modelled; None is a failed instruction. */
  type Other = (Message, Instr, Bank) -> Option<Bank>

  function RunSystem(other: Other, msg: Message, ix: Instr, b: Bank): Option<Bank>
    requires InRange(msg, ix)
  {
    var accts := Accounts(msg, ix);
    if |ix.data| >= 12 && U32(ix.data, 0) == SYS_TRANSFER && |accts| >= 2 then
      var lamports := U64(ix.data, 4);
      if ix.accounts[0] < msg.signers && Balance(b, accts[0]) >= lamports
      then Some(Move(b, accts[0], accts[1], lamports)) else None
    else if |ix.data| >= 4 && U32(ix.data, 0) == SYS_ADVANCE_NONCE then
      if |accts| >= 3 && ix.accounts[2] < msg.signers then Some(AdvanceNonce(b, accts[0])) else None
    else other(msg, ix, b)
  }

  /** The settlement program's deposit, taken at its most permissive: whatever account sits in the escrow
      slot is funded with exactly the amount, which therefore has to make it rent-exempt, and remembers
      the commitment. */
  function RunSettlement(env: Env, other: Other, msg: Message, ix: Instr, b: Bank): Option<Bank>
    requires InRange(msg, ix)
  {
    if |ix.data| != DEPOSIT_LEN || ix.data[0] != 0 then other(msg, ix, b)
    else
      var accts := Accounts(msg, ix);
      var amount := U64(ix.data, 33);
      if |accts| < 3 || ix.accounts[0] >= msg.signers then None
      else if amount < RENT_EXEMPT_LAMPORTS || accts[1] in b.escrows || Balance(b, accts[0]) < amount then None
      else
        var moved := Move(b, accts[0], accts[1], amount);
        Some(moved.(escrows := b.escrows[accts[1] := Escrow(accts[0], amount, ix.data[41..73], I64(ix.data, 73))]))
  }

  /** The registry's claim, taken at its most permissive: the price goes to whatever account sits in the
      treasury slot and the record is whatever account sits in the record slot, with the rent; both are
      paid by the payer, who becomes the owner. */
  function RunClaim(env: Env, other: Other, msg: Message, ix: Instr, b: Bank): Option<Bank>
    requires InRange(msg, ix)
  {
    if |ix.data| < 42 || ix.data[0] != 2 || |ix.data| != 42 + ix.data[1] as nat then other(msg, ix, b)
    else
      var n: nat := ix.data[1];
      var accts := Accounts(msg, ix);
      var key, price := ix.data[2 + n..34 + n], U64(ix.data, 34 + n);
      if |accts| < 6 || ix.accounts[0] >= msg.signers || ix.accounts[1] >= msg.signers then None
      else if accts[2] in b.names || Balance(b, accts[0]) < price + env.recordRent then None
      else
        var paid := Move(Move(b, accts[0], accts[4], price), accts[0], accts[2], env.recordRent);
        Some(paid.(names := b.names[accts[2] := Record(accts[0], key)]))
  }

  function RunIx(env: Env, other: Other, msg: Message, ix: Instr, b: Bank): Option<Bank>
    requires InRange(msg, ix)
  {
    var program := msg.keys[ix.program];
    if program == env.budget then Some(b)
    else if program == env.system then RunSystem(other, msg, ix, b)
    else if program == env.settlement then RunSettlement(env, other, msg, ix, b)
    else if program == env.registry then RunClaim(env, other, msg, ix, b)
    else other(msg, ix, b)
  }

  function RunAll(env: Env, other: Other, msg: Message, instrs: seq<Instr>, b: Bank): Option<Bank>
    requires forall ix :: ix in instrs ==> InRange(msg, ix)
  {
    if instrs == [] then Some(b)
    else
      match RunIx(env, other, msg, instrs[0], b)
      case None => None
      case Some(next) => RunAll(env, other, msg, instrs[1..], next)
  }

  // ---- the fee ----

  predicate IsBudget(env: Env, msg: Message, ix: Instr) {
    ix.program < |msg.keys| && msg.keys[ix.program] == env.budget
  }

  /** A compute-budget instruction the runtime can parse. */
  predicate BudgetParses(data: Bytes) {
    |data| > 0 && (((data[0] == CB_LIMIT || data[0] == CB_HEAP || data[0] == CB_DATA_SIZE) && |data| >= 5)
                   || (data[0] == CB_PRICE && |data| >= 9))
  }

  /** The runtime turns down a transaction with an unreadable or repeated compute-budget operation. */
  predicate BudgetValid(env: Env, msg: Message) {
    && (forall i :: 0 <= i < |msg.instrs| && IsBudget(env, msg, msg.instrs[i]) ==> BudgetParses(msg.instrs[i].data))
    && (forall i, j :: 0 <= i < j < |msg.instrs| && IsBudget(env, msg, msg.instrs[i]) && IsBudget(env, msg, msg.instrs[j])
                       ==> msg.instrs[i].data[0] != msg.instrs[j].data[0])
  }

  /** The one instruction that carries this compute-budget operation, if there is one. */
  function FindBudget(env: Env, msg: Message, tag: byte, n: nat): (r: Option<nat>)
    requires n <= |msg.instrs|
    ensures r.Some? ==> r.value < n && IsBudget(env, msg, msg.instrs[r.value]) && BudgetParses(msg.instrs[r.value].data)
                        && msg.instrs[r.value].data[0] == tag
    ensures r.None? ==> forall i :: 0 <= i < n && IsBudget(env, msg, msg.instrs[i]) && BudgetParses(msg.instrs[i].data)
                                    ==> msg.instrs[i].data[0] != tag
  {
    if n == 0 then None
    else
      var ix := msg.instrs[n - 1];
      if IsBudget(env, msg, ix) && BudgetParses(ix.data) && ix.data[0] == tag then Some(n - 1)
      else FindBudget(env, msg, tag, n - 1)
  }

  function CountOthers(env: Env, msg: Message, n: nat): nat
    requires n <= |msg.instrs|
  {
    if n == 0 then 0
    else CountOthers(env, msg, n - 1) + (if IsBudget(env, msg, msg.instrs[n - 1]) then 0 else 1)
  }

  function Min(a: nat, b: nat): nat {
    if a <= b then a else b
  }

  function UnitLimit(env: Env, msg: Message): nat {
    match FindBudget(env, msg, CB_LIMIT, |msg.instrs|)
    case Some(i) => Min(U32(msg.instrs[i].data, 1), MAX_CU_LIMIT)
    case None => Min(DEFAULT_CU_PER_IX * CountOthers(env, msg, |msg.instrs|), MAX_CU_LIMIT)
  }

  function UnitPrice(env: Env, msg: Message): nat {
    match FindBudget(env, msg, CB_PRICE, |msg.instrs|)
    case Some(i) => U64(msg.instrs[i].data, 1)
    case None => 0
  }

  /** The least whole number of lamports that covers `micro` micro-lamports. */
  function Covering(micro: nat): (p: nat)
    ensures p * MICRO >= micro
    ensures forall q: nat :: q * MICRO >= micro ==> q >= p
  {
    (micro + MICRO - 1) / MICRO
  }

  function PriorityFee(units: nat, micro: nat): nat {
    Covering(units * micro)
  }

  function RuntimeFee(env: Env, msg: Message): nat {
    LAMPORTS_PER_SIGNATURE * msg.signers + PriorityFee(UnitLimit(env, msg), UnitPrice(env, msg))
  }

  // ---- a whole transaction ----

  datatype Outcome = NotProcessed | FeeOnly(bank: Bank) | Executed(bank: Bank)

  /** Does the transaction start by advancing a nonce? Such an advance survives a later failure. */
  predicate LeadsWithNonce(env: Env, msg: Message) {
    && |msg.instrs| > 0 && InRange(msg, msg.instrs[0])
    && msg.keys[msg.instrs[0].program] == env.system
    && |msg.instrs[0].data| >= 4 && U32(msg.instrs[0].data, 0) == SYS_ADVANCE_NONCE
  }

  /** Executes a transaction that every required signer has signed. */
  function Process(env: Env, other: Other, msg: Message, b: Bank): Outcome {
    if !Sane(msg) || !BudgetValid(env, msg) || Balance(b, msg.keys[0]) < RuntimeFee(env, msg) then NotProcessed
    else
      var charged := Credit(b, msg.keys[0], -(RuntimeFee(env, msg) as int));
      match RunAll(env, other, msg, msg.instrs, charged)
      case Some(done) => Executed(done)
      case None =>
        if !LeadsWithNonce(env, msg) then FeeOnly(charged)
        else
          match RunIx(env, other, msg, msg.instrs[0], charged)
          case None => NotProcessed
          case Some(advanced) => FeeOnly(advanced)
  }
}
