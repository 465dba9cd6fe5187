/** What the paying callers ask the gate for, and how they name their own attempt
    (src/xete_mcp/payment.py, src/xete_mcp/settlement.py `deposit`, and the claim tool). */
module Payment {
  import opened SpendLedger
  import Text

  const LAMPORTS_PER_BLOB := 1_000_000
  const RENT_EXEMPT_LAMPORTS := (128 + 81) * 3480 * 2

  const SEND_LABEL := "xete_send_message"
  const DEPOSIT_LABEL := "xete_settle_create"
  const CLAIM_LABEL := "xete_alias_claim"

  datatype Kind =
    | Herd(blobs: int, declared: int)
    | Deposit(amount: int)
    | Claim(charge: nat)

  function Label(k: Kind): string {
    match k
    case Herd(_, _) => SEND_LABEL
    case Deposit(_) => DEPOSIT_LABEL
    case Claim(_) => CLAIM_LABEL
  }

  /** What the instruction being signed takes from the payer, fees and rent apart. */
  function Moves(k: Kind): nat {
    match k
    case Herd(blobs, _) => if blobs > 0 then blobs * LAMPORTS_PER_BLOB else 0
    case Deposit(amount) => if amount > 0 then amount else 0
    case Claim(charge) => charge
  }

  /** The amount the caller puts to the gate: a server's price can only raise it. */
  function Asks(k: Kind): int {
    match k
    case Herd(_, declared) => if declared > Moves(k) then declared else Moves(k)
    case Deposit(amount) => amount
    case Claim(charge) => charge
  }

  /** What is asked for is the larger of what the signed instruction takes and what the server declares; a
      server cannot make it less than the blobs cost. */
  lemma AsksIsLargest(blobs: int, declared: int)
    ensures var asks := Asks(Herd(blobs, declared));
            && asks >= 0 && asks >= 1_000_000 * blobs && asks >= declared
            && (asks == 0 || asks == 1_000_000 * blobs || asks == declared)
  {
  }

  /** A deposit too small for its own escrow account is turned away before the gate. */
  predicate ReachesGate(k: Kind) {
    k.Deposit? ==> k.amount >= RENT_EXEMPT_LAMPORTS
  }

  /** The amount the caller names when it gives the spend back: a payment names what was charged,
      a deposit and a claim name what they asked for. */
  function ReleaseAmount(k: Kind, charged: nat): int {
    if k.Herd? then charged else Asks(k)
  }

  /** Length of the random token each kind of attempt puts at the front of its detail. */
  function TokenLength(k: Kind): nat {
    if k.Herd? then 16 else 12
  }

  function Detail(token: string, rest: string): string {
    "attempt=" + token + " " + rest
  }

  /** The token leads the detail, so no server-chosen text can push it past the truncation:
      two stored details of the same kind are equal only for the same attempt. */
  lemma TokenSurvivesTruncation(t1: string, r1: string, t2: string, r2: string)
    requires |t1| == |t2| <= 100
    requires Truncate(Detail(t1, r1)) == Truncate(Detail(t2, r2))
    ensures t1 == t2
  {
    var d1, d2 := Detail(t1, r1), Detail(t2, r2);
    forall i | 0 <= i < |t1| ensures t1[i] == t2[i] {
      assert t1[i] == d1[8 + i] == Truncate(d1)[8 + i];
      assert t2[i] == d2[8 + i] == Truncate(d2)[8 + i];
    }
  }

  // ---- the one refusal that is evidence of success ----

  function Lower(c: char): char {
    if 'A' <= c <= 'Z' then 'a' + (c - 'A') else c
  }

  function LowerAll(s: string): string {
    seq(|s|, i requires 0 <= i < |s| => Lower(s[i]))
  }

  predicate StandsAt(s: string, part: string, i: int) {
    0 <= i <= |s| - |part| && s[i..i + |part|] == part
  }

  predicate Contains(s: string, part: string) {
    exists i :: 0 <= i <= |s| && StandsAt(s, part, i)
  }

  predicate SaysAlreadyProcessed(text: string) {
    || Contains(LowerAll(text), "already been processed")
    || Contains(LowerAll(text), "alreadyprocessed")
  }

  /** `said` is `spelling`, which is in small letters, in some letter case. */
  predicate Spells(said: string, spelling: string) {
    && |said| == |spelling|
    && forall i :: 0 <= i < |said| ==>
         said[i] == spelling[i] || ('a' <= spelling[i] <= 'z' && said[i] as int == spelling[i] as int - 32)
  }

  /** `text` is `before`, then one of the two spellings in some letter case, then `after`. */
  predicate SaysIt(text: string, before: string, said: string, after: string) {
    && text == before + said + after
    && (Spells(said, "already been processed") || Spells(said, "alreadyprocessed"))
  }

  /** The text says somewhere that the transaction was already processed. */
  ghost predicate TellsOfProcessing(text: string) {
    exists before, said, after :: SaysIt(text, before, said, after)
  }

  lemma LowerSpells(said: string, spelling: string)
    requires forall i :: 0 <= i < |spelling| ==> !('A' <= spelling[i] <= 'Z')
    ensures LowerAll(said) == spelling <==> Spells(said, spelling)
  {
    if Spells(said, spelling) {
      forall i | 0 <= i < |said| ensures LowerAll(said)[i] == spelling[i] {
      }
    } else if |said| == |spelling| {
      var i :| 0 <= i < |said| && said[i] != spelling[i] && !('a' <= spelling[i] <= 'z' && said[i] as int == spelling[i] as int - 32);
      assert LowerAll(said)[i] == Lower(said[i]) != spelling[i];
    }
  }

  lemma LowerOfPart(text: string, i: nat, n: nat)
    requires i + n <= |text|
    ensures |LowerAll(text)| == |text| && LowerAll(text)[i..i + n] == LowerAll(text[i..i + n])
  {
  }

  predicate SpelledAt(text: string, spelling: string, i: int) {
    0 <= i <= |text| - |spelling| && Spells(text[i..i + |spelling|], spelling)
  }

  lemma ContainsIsSpelled(text: string, spelling: string)
    requires forall i :: 0 <= i < |spelling| ==> !('A' <= spelling[i] <= 'Z')
    ensures Contains(LowerAll(text), spelling)
       <==> exists i :: 0 <= i <= |text| && SpelledAt(text, spelling, i)
  {
    var low := LowerAll(text);
    forall i | 0 <= i <= |text| - |spelling|
      ensures StandsAt(low, spelling, i) <==> SpelledAt(text, spelling, i)
    {
      LowerOfPart(text, i, |spelling|);
      LowerSpells(text[i..i + |spelling|], spelling);
    }
  }

  /** A refusal is taken for "already processed" if and only if it says so: one of the two spellings, in
      whatever letter case and whatever surrounds it. */
  lemma AlreadyProcessedIff(text: string)
    ensures SaysAlreadyProcessed(text) <==> TellsOfProcessing(text)
  {
    hide Contains, Spells;
    ContainsIsSpelled(text, "already been processed");
    ContainsIsSpelled(text, "alreadyprocessed");
    if SaysAlreadyProcessed(text) {
      var spelling := if Contains(LowerAll(text), "already been processed") then "already been processed" else "alreadyprocessed";
      var i :| 0 <= i <= |text| && SpelledAt(text, spelling, i);
      var n := i + |spelling|;
      assert text == text[..i] + text[i..n] + text[n..];
      assert SaysIt(text, text[..i], text[i..n], text[n..]);
    }
    if TellsOfProcessing(text) {
      var before, said, after :| SaysIt(text, before, said, after);
      SpellsLength(said, "already been processed");
      SpellsLength(said, "alreadyprocessed");
      assert text[|before|..|before| + |said|] == said;
      assert SpelledAt(text, "already been processed", |before|) || SpelledAt(text, "alreadyprocessed", |before|);
    }
  }

  lemma SpellsLength(said: string, spelling: string)
    ensures Spells(said, spelling) ==> |said| == |spelling|
  {
  }
}
