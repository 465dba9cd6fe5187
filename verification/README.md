# Verified models of the xete agent client

The client spends lamports and signs messages on behalf of an agent, against servers and RPC nodes it
does not trust. These Dafny modules model the parts that decide what may be spent and signed, and the
stateful helpers around them, and prove what each part is for over every input and every run.

| file | models |
|---|---|
| `SpendLedger.dfy`, `LedgerFile.dfy` | the rolling-window ledger: pruning, sorting, compaction, the decision, the file's decoding |
| `SpendGuard.dfy` | the gate as an object over the file: authorize, the time a refused spend fits, release, status |
| `SpendRuns.dfy` | every run of approvals and releases under every clock |
| `LockMachine.dfy`, `LockProtocol.dfy`, `LockProgress.dfy` | many processes in small interleaved steps: lock, read, temporary file, rename, crash, unlocked readers; what that amounts to, and that nobody is kept out for good |
| `Payment.dfy`, `SpendProtocol.dfy` | the paying callers, and the end-to-end machine of asking, building, submitting, landing and giving back |
| `Submission.dfy` | submission and confirmation against endpoints that answer anything |
| `Composition.dfy` | the machines put together: the paying callers as runs of the end-to-end machine, the end-to-end cap over small steps |
| `Wire.dfy`, `Runtime.dfy` | bytes, compact lengths and parsed transactions; an execution semantics written apart from both verifiers |
| `Draft.dfy`, `DraftSound.dfy`, `DraftBuild.dfy`, `DraftExact.dfy` | the draft verifier, its soundness against execution, its round trip with the builder, and exactly which transactions pass |
| `Claim.dfy`, `ClaimSound.dfy`, `ClaimBuild.dfy` | the claim verifier, its exactness and soundness, the charge for a claim, and the round trip of an honest claim |
| `Freshness.dfy` | per-endpoint slot marks, floors and ceilings |
| `RateLimiter.dfy` | the sliding-window reply limiter |
| `Invites.dfy` | the welcome tour, the invite pool and the low-pool alert |
| `Keystore.dfy` | what an identity keeps of its secrets, and the keystore migration under crashes |
| `Challenge.dfy` | the signing guard and the two challenge templates |
| `Chunker.dfy` | overlapping document chunks |

`Wrappers.dfy` and `Text.dfy` are shared helpers. `dafny verify dfyconfig.toml` checks everything.

Conventions of the model: times and seconds are reals; amounts are unbounded integers where Python's are,
and 64-bit fields are packed and unpacked explicitly; hashes, address derivation, base64 and the
deserialisation of transactions are arbitrary functions, and a lemma that needs more of one says so in a
`requires`; limits and other configuration are fixed during a run.

## What the proofs found

These are places where the code does something other than its documentation says, or than a reader would
assume. Each is stated in the lemma named.

- The documented rolling window is W seconds. The gate accepts clock readings up to two seconds below the
  newest recorded time, so the cap holds for every interval of W - 2 seconds (`SpendRuns.WindowCapAnyClock`)
  and, with a clock set back, for no longer one, under the default limits too (`SpendRuns.WindowCapIsSharp`,
  `SpendRuns.DefaultsOverfill`). With readings that never decrease it holds for the full W
  (`SpendRuns.WindowCapSteadyReadings`).
- The time a refusal reports is exact if and only if what has expired by then covers the excess. Within the
  cap it always does; with the cap lowered below what is already spent it can be too early
  (`SpendGuard.FreesAtIsExact`).
- A deposit or claim gives back the amount it asked for, but the ledger holds the charged amount, so below
  the floor the release does nothing. A payment gives back what was charged. An entry that compaction has
  folded into another is not found either (`SpendProtocol.ReleaseUndoesApproval`). Both errors are on the
  safe side.
- The charge for a claim is the larger of price and worst-case fee, and of price and rent, because simulation
  sees no fee and static decoding no rent. It covers what leaves exactly when the rent fits between the real
  fee and the worst-case fee; under a unit limit the runtime honours, only when the record is free. It is
  never short by more than the fee (`ClaimSound.ChargeCovers`). So the end-to-end cap is about charged
  lamports.
- The payment watch reports "confirmed on chain and FAILED" on an error at any commitment, although the
  settlement watch refuses to conclude anything from a status that can still be forked away. Such a payment
  can still settle if and only if the deciding status was not durable
  (`Submission.ErrorReportIsRevisableIff`).
- "Dropped" rests on the first endpoint's dead-blockhash read and the second's later no-status read. The
  second endpoint's two truthful answers alone would never be enough (`Submission.SecondAloneIsNotEnough`).
- An endpoint can push its own freshness mark above any honest slot by one tolerance per call, even while no
  time passes, so elapsed time is a hard ceiling for one answer only (`Freshness.MarkIsBounded`,
  `Freshness.CreepReachesTheBound`).
- The reply limiter relies on a clock that does not step back. Apart from an empty window, the limit per
  sender survives every clock if and only if it or the global limit is at most one
  (`RateLimiter.SenderLimitUnderAnyClock`), and the global limit if and only if it is at most one or nobody
  may send (`RateLimiter.GlobalLimitUnderAnyClock`). Otherwise any step back, however small, overfills a
  window, without bound (`RateLimiter.StepBackIsUnbounded`).
- "Codes are issued once" holds as long as no record is lost. Saves fail silently, and a state file that
  cannot be read is taken to be empty and then overwritten with the one sender at hand, so both a failed save
  and a failed read lose records (`Invites.ForgottenIff`). While the pool has codes, whoever is not on record can
  be issued some, again if need be, and nobody else can (`Invites.ReissueIff`).
- A draft whose nonce is controlled by a second wallet can be built but never verifies, because it needs two
  signatures (`DraftBuild.BuildVerifyRoundTrip`).

## Model

| member | source | states |
|---|---|---|
| SpendLedger.SortIsPermutation | src/xete_mcp/spendguard.py:369-390 | sorting by time keeps every entry exactly as often as before |
| SpendLedger.SortKeepsSums | src/xete_mcp/spendguard.py:369-390 | sorting changes no total and no total after or up to any cutoff |
| SpendLedger.SortIsStable | src/xete_mcp/spendguard.py:369-390 | entries of one time keep their order, which with order and permutation leaves one result |
| SpendLedger.AfterKeepsLater | src/xete_mcp/spendguard.py:364-366 | a prune keeps the total after every later cutoff, and what it keeps totals what lies after it |
| SpendLedger.CompactNeverUnderCounts | src/xete_mcp/spendguard.py:379-395 | compaction leaves at most 2000 entries, keeps the total, and for no cutoff counts less than before |
| SpendLedger.CompactFoldsOldest | src/xete_mcp/spendguard.py:379-395 | up to 2000 entries stay as they are; of more, the newest 1999 stay as they are, in order, and all others are folded into one entry with their sum and their newest time |
| SpendLedger.CompactInventsNothing | src/xete_mcp/spendguard.py:379-395 | no entry a caller wrote occurs more often after compaction |
| SpendLedger.DropSums | src/xete_mcp/payment.py:187-200 | deleting one entry lowers each total by exactly that entry where it counted |
| SpendLedger.ChargeIsExact | src/xete_mcp/spendguard.py:418-463 | the limits let an amount through exactly when it is not negative, no cap is zero, the floor is within the spend cap and so is the amount; the charge is then the larger of amount and floor |
| SpendLedger.ClockHeld | src/xete_mcp/spendguard.py:352-366 | the window ends at the clock, up to two seconds behind the newest recorded time; with a clock further back decision and record are those at the newest recorded time; the recorded total is the live total and the charge |
| LedgerFile.ReadLedger | src/xete_mcp/spendguard.py:274-322 | an absent file is the empty ledger, exactly the well-formed version-1 documents are accepted, entry for entry, everything else is refused |
| LedgerFile.DecodeIsExact | src/xete_mcp/spendguard.py:274-322 | a file stands for a ledger if and only if it is absent and the ledger empty, or it holds a version-1 document with that time and, one by one, those entries |
| LedgerFile.LedgerRoundTrip | src/xete_mcp/spendguard.py:274-347 | reading back what was written gives the same ledger |
| SpendGuard.FreesAt | src/xete_mcp/spendguard.py:369-376 | the earliest prune that frees the needed lamports, ties included, or nothing exactly when the entries never add up to it |
| SpendGuard.FreesAtIsExact | src/xete_mcp/spendguard.py:369-376 | the refused spend fits from the reported time on and at no earlier time (and never, when none is reported) if and only if what has expired by that time covers the excess, which it does whenever the live total is within the cap |
| SpendGuard.Guard.Authorize | src/xete_mcp/spendguard.py:400-512 | approves exactly when the limits, the lock, the ledger, the window and the write allow it; the charge is at least quote and floor and one of the two; each refusal by the limits alone has its exact condition; an approval leaves the pruned, extended, compacted ledger, whose total is the reported one, a refusal leaves the file alone and says which check refused, with a freeing time that is exact if and only if what has expired by then covers the excess |
| SpendGuard.Guard.Release | src/xete_mcp/payment.py:148-202 | removes the newest entry with this path, stored detail and amount and nothing else, or changes nothing |
| SpendGuard.Guard.Status | src/xete_mcp/spendguard.py:515-544 | reports the live total, and a positive charge fits exactly when it is at most the reported remainder |
| SpendRuns.RunKeepsInv | src/xete_mcp/spendguard.py:467-502 | over every run the ledger counts at least the whole history after every usable cutoff, holds at most the cap and at most 2000 entries, and contains no entry that was not approved |
| SpendRuns.WindowCapAnyClock | src/xete_mcp/spendguard.py:352-395 | for every run and every clock, approved lamports recorded in any half-open interval of W - 2 seconds total at most the cap |
| SpendRuns.WindowCapSteadyClock | src/xete_mcp/spendguard.py:352-366 | with a clock that never reads below the newest recorded time, the same for the full W |
| SpendRuns.WindowCapSteadyReadings | src/xete_mcp/spendguard.py:352-366 | so it does whenever the clock readings themselves never decrease |
| SpendRuns.WindowCapIsSharp | src/xete_mcp/spendguard.py:352-361 | under any limits with room for a batch of equal charges and a small one but not for the batch twice, a run that overfills an interval longer than W - 2 by however little |
| SpendRuns.DefaultsOverfill | src/xete_mcp/spendguard.py:10-25 | the default limits are among them: four of the largest spends, twice |
| LockProtocol.Linearizable | src/xete_mcp/spendguard.py:164-236 | after any interleaving of steps and crashes the ledger on disk is that of one serial order; each entry of that order is one operation some process began, after it began, and none occurs twice; every operation ever answered has its own place in it, got the answer the serial run gives there, and comes after all that were answered before it began |
| LockProtocol.RealTimeOrder | src/xete_mcp/spendguard.py:164-236 | an operation begun now takes effect, if ever, after everything that has taken effect or been answered by now |
| LockProtocol.MutualExclusion | src/xete_mcp/spendguard.py:164-236 | two processes are never between lock and unlock at once |
| LockProtocol.ReadersSeeCommitted | src/xete_mcp/spendguard.py:515-544 | a reader without the lock sees the serial run of everything that has taken effect at that moment, which holds everything answered by then and stays a prefix of the serial order for good |
| LockProtocol.LooksNeverGoBack | src/xete_mcp/spendguard.py:515-544 | of two looks the later one never sees a shorter prefix of the serial order |
| LockProtocol.StepIsAtomic | src/xete_mcp/spendguard.py:325-347 | only the rename changes the ledger, and then to the whole serial successor of the old one; a crash leaves it alone |
| LockProgress.WaitingCanFinish | src/xete_mcp/spendguard.py:164-236 | from every reachable state, whether the lock's holder finishes its turn or dies, every waiting process can then take its own turn and is answered |
| LockProgress.AloneIsSerial | src/xete_mcp/spendguard.py:400-512 | a process that finds the lock free and is left alone leaves the ledger and gives the answer of the serial step, whether its write succeeds or fails |
| LockProtocol.CapUnderConcurrency | src/xete_mcp/spendguard.py:467-502 | at every moment of every interleaving the ledger holds at most the cap and no interval of W - 2 seconds carries more |
| Payment.TokenSurvivesTruncation | src/xete_mcp/payment.py:105-118 | two stored details are equal only if their attempt tokens are, whatever text the server chose |
| Payment.AsksIsLargest | src/xete_mcp/payment.py:229-232 | a payment asks for the larger of what its blobs cost and what the server declares |
| Payment.AlreadyProcessedIff | src/xete_mcp/payment.py:66-89 | a refusal counts as already processed if and only if it contains one of the two spellings, in any letter case |
| SpendProtocol.LandedUnderWindowCap | src/xete_mcp/payment.py:205-347 | end to end: in every interleaving of callers, answers, landings and crashes, the charges of landed transactions recorded in the current window, floors included, never exceed the cap |
| SpendProtocol.LandedUnderCapAnywhere | src/xete_mcp/payment.py:205-347 | the same for every interval of W - 2 seconds in the history, and so for the lamports they moved |
| SpendProtocol.LedgerCoversLanded | src/xete_mcp/spendguard.py:467-502 | after every usable cutoff, the charges of what landed are at most what the ledger counts, which is at most the cap |
| SpendProtocol.FloorBoundsFreeSpends | src/xete_mcp/spendguard.py:24-28 | in every interval of W - 2 seconds the number of landed transactions, free ones included, times the floor is at most the cap |
| SpendProtocol.SentCanLand | src/xete_mcp/payment.py:250-310 | nothing but the gate keeps a spend off the chain: from every reachable state a cleared attempt can be sent and land, also after its caller stopped or died, and then counts with its charge |
| SpendProtocol.ReleasedNeverLands | src/xete_mcp/payment.py:234-310 | once budget was given back for a transaction, it was never sent or refused at preflight, and in every continuation it stays so and never lands |
| SpendProtocol.ReleaseTakesItsOwn | src/xete_mcp/payment.py:148-202 | the entry a release removes is that attempt's own |
| SpendProtocol.ReleaseUndoesApproval | src/xete_mcp/settlement.py:566-588 | approval, failed build and release: the charge comes back if and only if the caller names the charged amount (a payment always, a deposit or claim exactly from the floor up) and compaction has not folded the entry; the live total is then restored, and the live entries themselves when the ledger was not full; otherwise the charge stands |
| Submission.AwaitConfirmation | src/xete_mcp/settlement.py:387-471 | the watch ends with the first poll that leaves nothing open; each verdict holds exactly for its evidence; at most ceil(budget / 0.3) + 1 polls and one excursion to a second endpoint; the calls it makes, in order, are those its answers call for |
| Submission.Send | src/xete_mcp/settlement.py:236-346 | settled exactly on a durable error-free status of the local signature, failed exactly on a durable error, rejected exactly on a refusal that nowhere says the transaction was already processed, dropped exactly on a corroborated drop, unconfirmed otherwise |
| Submission.DropSoundIff | src/xete_mcp/settlement.py:418-445 | a truthful dead-blockhash read and a truthful no-status read prove a drop exactly when the no-status read did not come first, up to one slot |
| Submission.DroppedIsSound | src/xete_mcp/settlement.py:349-384 | if the calls are served in the order the watch makes them, a transaction reported dropped never lands on one linear chain, when the dead-blockhash read and the later no-status read are truthful |
| Submission.SecondAloneIsNotEnough | src/xete_mcp/settlement.py:349-384 | for every drop there is a chain on which both answers of the second endpoint are truthful, in order, and the transaction lands |
| Submission.WatchPayment | src/xete_mcp/payment.py:349-382 | the first of at most thirty polls with an error or a durable status decides |
| Submission.PayHerd | src/xete_mcp/payment.py:205-382 | refused exactly when the gate refuses, with the file untouched; the recorded charge is given back exactly when nothing was built or preflight refused without saying anywhere that the transaction was already processed; paid only on a durable error-free status of the local signature |
| Submission.ErrorReportIsRevisableIff | src/xete_mcp/payment.py:360-376 | after a reported failure on chain some truthful continuation settles without error if and only if the deciding status was not durable |
| Submission.PaidReportIsFinal | src/xete_mcp/payment.py:360-376 | after a reported success no truthful continuation ever shows a durable failure |
| Submission.DurableIsFinal | src/xete_mcp/settlement.py:413-429 | a durable status is never contradicted by a truthful continuation, which is why that watch concludes from nothing less |
| Submission.OpenDeposit | src/xete_mcp/settlement.py:523-588 | too small amounts never reach the gate; the charge is given back only for failures before the submit call; the verdict is that of the submission |
| Composition.PayHerdOnPath | src/xete_mcp/payment.py:205-382 | every run of a payment, whatever the endpoints answer, moves the ledger as a path of the end-to-end machine does: ask, build, submit, refusal or none, give back or not |
| Composition.OpenDepositOnPath | src/xete_mcp/settlement.py:523-588 | so does every run of a deposit, and one too small for its escrow takes no step |
| Composition.AuthorizeIsSerial | src/xete_mcp/spendguard.py:400-512 | what the gate leaves in the file and answers is the serial step of the lock machine on that ledger |
| Composition.ReleaseIsSerial | src/xete_mcp/payment.py:148-202 | so is a release, which is effective exactly when a matching entry is there and the write succeeds |
| Composition.LandedCapOverSmallSteps | src/xete_mcp/spendguard.py:164-236 | the end-to-end cap over interleaved small steps and crashes: the file on disk is the ledger of the callers' run, and it counts everything that landed within the window, at most the cap |
| Wire.UnpackPack | src/xete_mcp/settlement.py:500-512 | a packed little-endian field reads back |
| Wire.PackUnpack | src/xete_mcp/draft.py:168-173 | every byte string is the packing of the number it reads as |
| Wire.HexIsInjective | src/xete_mcp/draft.py:638-645 | an escrow id in hexadecimal names one id |
| Wire.ReadCompact | src/xete_mcp/txguard.py:523-541 | the loop reads exactly the compact length and its width, within its byte limit |
| Wire.CompactRoundTrip | src/xete_mcp/txguard.py:523-541 | an encoded length is read back with its width, whatever follows |
| Wire.VerifiersAgreeOnLegacy | src/xete_mcp/draft.py:126-165 | where both verifiers can read the prefix, they agree on which transactions are legacy |
| Wire.LayoutDecides | src/xete_mcp/draft.py:126-165 | a transaction laid out as count, signatures, message is legacy exactly when its message starts below 128 |
| Draft.InstructionShape | src/xete_mcp/draft.py:344-400 | the loop lists each instruction's kind in order and the nonce accounts named |
| Draft.LamportMovements | src/xete_mcp/draft.py:283-341 | the loop lists every movement in order and counts what it could not decode |
| Draft.TransactionFee | src/xete_mcp/draft.py:233-280 | the loop's fee and number of unreadable budget instructions |
| Draft.CeilDivIsCovering | src/xete_mcp/draft.py:233-280 | the written negate-divide-negate is the least number of lamports that covers the micro-lamports |
| Draft.VerifyDraft | src/xete_mcp/draft.py:542-798 | passes exactly the readable legacy transactions that meet every expectation, which is when every recorded check holds, and then reports the expected total, the quoted fee and the escrow id |
| DraftSound.QuotedFeeIsRuntimeFee | src/xete_mcp/draft.py:233-280 | for an accepted shape the quoted fee is what the runtime takes |
| DraftSound.ShapeSubsumesArithmetic | src/xete_mcp/draft.py:725-780 | with indices in range and readable budget data, the shape and a rent-covering deposit of the expected amount already make the checks on decoding, deposits, programs, totals and destinations pass |
| DraftSound.DraftIsSound | src/xete_mcp/draft.py:542-798 | executing a passed draft, whatever other programs do, changes nothing, takes only the fee, or debits the depositor by exactly the amount and a fee within the bound, credits only the escrow of the reported id with the right commitment and no lock, and advances no nonce but the named one |
| DraftBuild.FieldsDetermineData | src/xete_mcp/settlement.py:500-512 | deposit data is determined by its fields |
| DraftBuild.AcceptedDataIsBuilt | src/xete_mcp/draft.py:640-724 | a passed draft carries byte for byte the deposit the builder makes for the reported id, the amount and the hash of recipient and salt |
| DraftBuild.SignersOfDraft | src/xete_mcp/draft.py:416-475 | a draft needs one signature, or two exactly when another wallet controls its nonce |
| DraftBuild.BuildsIff | src/xete_mcp/draft.py:403-475 | a draft is built exactly for a representable amount that covers the rent, 32-byte fields, and a nonce account controlled on chain by the configured wallet |
| DraftBuild.BuildVerifyRoundTrip | src/xete_mcp/draft.py:416-475 | every draft that can be built, through every account table that resolves to it, passes for an expectation if and only if that expectation fits the draft, with or without an escrow id, and no other wallet controls its nonce |
| DraftBuild.IdIsOptional | src/xete_mcp/draft.py:675-683 | a transaction passes without an expected escrow id if and only if it passes with some, which is then the reported one |
| DraftExact.AcceptanceIsExact | src/xete_mcp/draft.py:542-798 | a transaction passes if and only if it is unsigned, needs only the depositor, and is at most the named nonce advance, a unit limit, a unit price and the deposit of the expected amount for the expected recipient into the escrow of its id, account for account, at a fee within the bound |
| Claim.DecodeIsExact | src/xete_mcp/txguard.py:622-699 | claim data passes exactly when it encodes the canonical name, a 32-byte record key (the pinned one, if pinned) and the quoted price |
| Claim.InspectAliasClaim | src/xete_mcp/txguard.py:774-1116 | the inspection succeeds exactly for a registrable name and a readable legacy transaction that passes every check, with the reported figures |
| ClaimSound.ScanIsExact | src/xete_mcp/txguard.py:899-1045 | the scan survives exactly the lists of good claims and distinct, well-formed budget instructions with at most one claim, and then knows their tags, limit and price |
| ClaimSound.AcceptanceIsExact | src/xete_mcp/txguard.py:774-1116 | a transaction passes if and only if it is paid and still to be signed by us, at most one other has signed, it is one good claim (data, six accounts in their slots, a pinned treasury, payer and record writable) with otherwise distinct budget instructions, its worst fee fits the tolerance and its priority fee the cap |
| ClaimBuild.HonestClaimPasses | src/xete_mcp/txguard.py:774-1116 | an honest claim for the expectations, with or without a co-signer, passes if and only if its treasury and record key are the pinned ones, its fee fits the tolerance and its blockhash is not known dead; the report names that key, treasury and fee |
| ClaimSound.FeeIsBounded | src/xete_mcp/txguard.py:1050-1085 | the runtime never takes more than the reported worst-case fee |
| ClaimSound.InspectThenSign | src/xete_mcp/server.py:1142-1186 | our signature appears only on a message whose processing makes the inspected claim and nothing else; no other slot changes; the transaction that was inspected is signed with the right key |
| ClaimSound.SignedClaimIsSound | src/xete_mcp/txguard.py:1225-1248 | processing any message with the inspected digest changes nothing, takes only a fee within the tolerance, or makes exactly the claim asked for: price to the reported payee, which is the pinned treasury if one is pinned, rent to the record, the name bound to the payer and the key |
| ClaimSound.ChargeSandwich | src/xete_mcp/txguard.py:1171-1222 | for an accepted claim the charge is the larger of the static and the simulated debit, at least the quote and at most the ceiling, and without simulation it is the ceiling |
| ClaimSound.SimulationBounds | src/xete_mcp/txguard.py:1171-1207 | the claim goes on exactly when the simulation measured at most the ceiling, or gave no answer where none is required |
| ClaimSound.ChargeCovers | src/xete_mcp/txguard.py:1210-1222 | the charge covers what leaves if and only if the rent fits between the real and the worst-case fee, which under a unit limit the runtime honours means the record is free; it is never short by more than the fee; the unsimulated charge covers it if and only if the tolerance has room for fee and rent |
| Freshness.SlotMemory.RecordSlot | src/xete_mcp/alias_chain.py:261-280 | records exactly the slots under the ceiling, evicting the oldest key only for a new key at 64, and keeps the table consistent and bounded |
| Freshness.SlotMemory.ForgetSlot | src/xete_mcp/alias_chain.py:283-293 | removes this key's mark and no other |
| Freshness.RunStaysBounded | src/xete_mcp/alias_chain.py:261-293 | over every run the table is consistent and holds at most 64 keys |
| Freshness.OthersOnlyRemove | src/xete_mcp/alias_chain.py:229-293 | another endpoint's answer leaves a mark and a floor alone or removes them |
| Freshness.OwnAnswerRaises | src/xete_mcp/alias_chain.py:245-293 | an endpoint's own answer raises its mark up to the ceiling, leaves it, or removes it after refusing its floor |
| Freshness.FloorIff | src/xete_mcp/alias_chain.py:229-242 | the floor sent lies exactly the tolerance below the endpoint's own mark, and none is sent where that is not positive or no lag is checked |
| Freshness.MarkIsMonotone | src/xete_mcp/alias_chain.py:261-280 | while a key stays in the table its slot never goes down, over any run |
| Freshness.NoFloorAfterBehind | src/xete_mcp/alias_chain.py:431-450 | after a floor was refused, no floor is sent to that endpoint until it has answered at a slot again |
| Freshness.HonestIsServed | src/xete_mcp/alias_chain.py:229-293 | an honest endpoint with a clock that does not step back is recorded at every call and never refused, whatever the others answer |
| Freshness.MarkIsBounded | src/xete_mcp/alias_chain.py:245-258 | a mark exceeds the fastest chain by at most one tolerance per call to that endpoint |
| Freshness.CreepReachesTheBound | src/xete_mcp/alias_chain.py:245-258 | that bound is reached by answering at the ceiling every time |
| RateLimiter.Limiter.CheckAndRecord | agent_runtime.py:59-71 | the two trimming loops and the two checks leave and answer what the queue step says |
| RateLimiter.Limiter.PruneEmpty | agent_runtime.py:73-75 | afterwards no queue is empty, and every sender's queue holds what it held |
| RateLimiter.TrimCounts | agent_runtime.py:59-71 | for ascending times a trimmed queue holds exactly the sends of the window that ends now |
| RateLimiter.QueuesAnswerLikeHistory | agent_runtime.py:59-71 | on every run with a steady clock, pruned whenever, the queues answer as a count over the full history does, global limit first |
| RateLimiter.WindowsHoldCaps | agent_runtime.py:49-71 | with a steady clock no closed window of the configured length, anywhere, holds more of the sends the queues allowed than the limits |
| RateLimiter.PruningIsInvisible | agent_runtime.py:73-75 | leaving every prune out of a run changes no answer, under any clock |
| RateLimiter.StepBackOverfills | agent_runtime.py:59-71 | for every limit of two or more and every step back, however small, a run that puts one send too many into one window |
| RateLimiter.StepBackIsUnbounded | agent_runtime.py:59-71 | as soon as two sends fit into a queue, a clock that steps back puts any number of sends into one instant |
| RateLimiter.SenderLimitUnderAnyClock | agent_runtime.py:59-71 | the limit per sender holds under every clock if and only if it or the global limit is at most one, or the window is empty |
| RateLimiter.GlobalLimitUnderAnyClock | agent_runtime.py:59-71 | the global limit holds under every clock if and only if it is at most one, or nobody may send, or the window is empty |
| Invites.Concierge.Handle | echo_tour.py:272-377 | one message, with any file operation failing, leaves the files and gives the reply the tour step says |
| Invites.Concierge.PopCodes | echo_tour.py:216-229 | takes up to the granted number from the front of the pool, or nothing if the pool cannot be read or written |
| Invites.Concierge.CheckLowPool | echo_tour.py:232-259 | reports and marks a low pool once, and clears the mark at or above the threshold |
| Invites.CodesAreConserved | echo_tour.py:216-270 | codes handed out, in order, followed by the pool are exactly the codes supplied, whichever reads and saves fail |
| Invites.NoCodeLeavesTwice | echo_tour.py:216-229 | if the supplied codes differ, no two grants share one |
| Invites.RepliesShowOwnGrants | echo_tour.py:296-306 | the codes in any reply, fresh or repeated, are one grant to that very sender |
| Invites.RunProgresses | echo_tour.py:272-377 | while the state file works, interleaved with anything, a sender's step never decreases, codes once recorded never change, and every NEXT counts |
| Invites.SixNextsComplete | echo_tour.py:308-377 | six NEXT after first contact complete the tour |
| Invites.IssuedOnce | echo_tour.py:263-306 | as long as no message loses a record, which working files ensure, no sender is issued codes twice |
| Invites.CheckLowIff | echo_tour.py:232-259 | a poll reports exactly when the pool file works and the pool is low and not yet marked so, with the number left; it changes no code, and the mark then says whether the pool is low |
| Invites.ForgottenIff | echo_tour.py:155-170 | a message loses the codes on record if and only if the state could not be read and could then be written; it leaves only its own sender, as a newcomer |
| Invites.ReissueIff | echo_tour.py:155-306 | while the pool has codes, messages with working files can bring a sender codes, first or again, if and only if none are on record for that sender |
| Invites.AlertsAreSeparated | echo_tour.py:232-259 | two low-pool alerts are separated by a poll at or above the threshold, whichever file operations fail |
| Keystore.MakeIdentity | src/xete_mcp/client.py:112-128 | the loop keeps the candidates that are secrets, are not the derived one and were not kept before, in order |
| Keystore.NoSecretIsLost | src/xete_mcp/client.py:112-138 | an identity decrypts with exactly the derived secret, first, and every 32-byte secret it was given, each once |
| Keystore.WriteReadRoundTrip | src/xete_mcp/client.py:166-190 | writing an identity and reading it back gives the same identity |
| Keystore.Home.LoadIdentity | src/xete_mcp/client.py:229-275 | loading returns the identity of the file, backs up once, and rewrites only a keystore that needs it and has a backup |
| Keystore.MigrationIsSafe | src/xete_mcp/client.py:207-268 | with any number of processes, failures and crashes in any interleaving, the keystore always loads to the same secrets in the same order, a present backup is untouched, and the original stays on disk |
| Keystore.SecondLoadRewritesNothing | src/xete_mcp/client.py:257-262 | a process that loads the migrated keystore is done at once |
| Challenge.JoinThenSplit | src/xete_mcp/signguard.py:213-220 | splitting a join of lines gives the lines back |
| Challenge.SignableIff | src/xete_mcp/signguard.py:101-137 | what can be signed is 1 to 512 printable characters or newlines among which the reserved constant stands nowhere |
| Challenge.PrintedTimeIsTimely | src/xete_mcp/signguard.py:184-220 | a time printed in decimal is accepted exactly when it has at most 19 digits and lies within a quarter of an hour of the clock |
| Challenge.AuthIsExact | src/xete_mcp/signguard.py:223-295 | the relay challenge is accepted if and only if it is signable and is the template printed with a plain-token nonce, a timestamp in the window, and this client's own nonce or no fourth line |
| Challenge.ClaimIsExact | src/xete_mcp/signguard.py:298-340 | the claim challenge is accepted if and only if it is signable and is the template printed with this wallet, a plain-token nonce and a timestamp in the window |
| Challenge.LanguagesAreDisjoint | src/xete_mcp/signguard.py:223-340 | no message is accepted as both |
| Challenge.PrintedAuthIsSignable | src/xete_mcp/signguard.py:101-137 | every printed relay challenge is short, printable and free of the reserved constant |
| Challenge.PrintedClaimIsSignable | src/xete_mcp/signguard.py:101-137 | so is every printed claim challenge for a wallet spelled in token characters |
| Challenge.AuthLanguage | src/xete_mcp/signguard.py:223-295 | for a client nonce in token characters the accepted relay challenges are exactly the printed ones |
| Challenge.ClaimLanguage | src/xete_mcp/signguard.py:298-340 | for a wallet in token characters the accepted claim challenges are exactly the printed ones |
| Chunker.ChunkText | rag_ingest.py:57-74 | the loop yields the stripped, non-empty slices of the cleaned text |
| Chunker.SlicesOverlap | rag_ingest.py:62-73 | slices are at most 1100 long; each but the last is at least 850 long and shares exactly its last 150 with the next, which so starts at least 700 further on |
| Chunker.OverlapsRebuild | rag_ingest.py:57-74 | dropping the overlaps rebuilds the text |
| Chunker.EveryCharacterIsKept | rag_ingest.py:57-74 | every character that is not a space stands in some chunk, in its surroundings |
| Chunker.ChunksFit | rag_ingest.py:57-74 | chunks are non-empty, at most 1100 long, and at most one more than the text has stretches of 700 |
| Chunker.CleanKeepsVisible | rag_ingest.py:58-58 | collapsing newlines and stripping drop spaces only |
| Chunker.NoTripleNewline | rag_ingest.py:58-58 | the collapsed text never has three newlines in a row |

## Left out

- Parsing below the modelled level: base64, base58, JSON text, and the deserialisation of transactions are arbitrary functions from bytes to the parsed form.
- sha256, address derivation and the signature scheme are arbitrary functions; `ClaimSound.SignedClaimIsSound` assumes only that the inspected and the signed message do not share a digest while differing.
- Floating point: times are reals, and the claim verifier's rounded-up priority fee is taken as the exact ceiling, with which the float division agrees under the default fee cap. NaN and infinite timestamps are not modelled.
- Environment parsing: limits, tolerances and thresholds are given values, constant during a run.
- The settlement and registry programs are not part of the repository: the execution semantics takes a deposit and a claim at their most permissive, with whatever account sits in the escrow, record or treasury slot.
- Draft.VerifyDraft: an expected escrow id is given as the verifier compares it, without surrounding spaces and in small letters.
- ClaimBuild.HonestClaimPasses: one account layout, without budget instructions; every other one is covered by `ClaimSound.AcceptanceIsExact`.
- Compute-budget and system instructions whose runtime effect the verifiers never rely on are given to an arbitrary behaviour in the execution semantics; account ownership, rent collection and the compute limit itself are not modelled.
- SpendProtocol.LandedUnderWindowCap: counts charged lamports; network fees and a claim's uncharged remainder (`ClaimSound.ChargeCovers`) come on top.
- SpendRuns.WindowCapIsSharp: for windows of at least two seconds; a shorter one has no interval of W - 2 seconds.
- Composition.LandedCapOverSmallSteps: takes the callers' ledger operations in the order in which they took effect; where a caller stands outside the lock is not tracked process by process.
- Composition.PayHerdOnPath: speaks of the ledger after a whole call; landing is up to the chain and no step of the caller.
- LockProtocol.Linearizable: the lock is exclusive and freed when its holder dies, as the operating system promises; the Windows retry loop and its timeout appear only as an operation that is never granted the lock.
- Submission.DroppedIsSound: one linear chain; forks deeper than a confirmed block are not modelled.
- Submission.AwaitConfirmation: the time a call to an endpoint takes appears only in the clock readings, and sleeping takes at least as long as asked.
- Invites.Concierge.Handle: which words mean NEXT, repeat or codes, and which platform a text names, are inputs; timestamps in the records and the reply wording are not modelled.
- Keystore.MigrationIsSafe: starts from an existing, readable keystore; the first creation writes in place, without the atomic replacement, and a keystore whose seed cannot be decoded fails to load before any migration.
- Challenge.AuthIsExact: messages are text; that a character outside printable ASCII encodes to refused bytes is built into the model.
- Chunker.ChunkText: the set of characters that stripping removes is a parameter; character offsets are those of the text, not of its bytes.
- Freshness.SlotMemory.RecordSlot: the ceiling and the record are one step; the source takes its lock twice.
- The rest of `resolve_owner_at` and the unicode rules of name normalisation: field checks on one answer.
- The relay client's login and inbox, the encryption layer, `server.py`, `safehttp.py`, the handlers and the brainstorm engine: wrappers and I/O around the parts above.
- Settlement `claim`, `reclaim` and the two-endpoint `status` view: they share the submission path above and move no lamports out of the wallet beyond fees.
