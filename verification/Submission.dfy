/** Submitting and watching a transaction (src/xete_mcp/settlement.py `_send`,
    `_await_confirmation`, `_corroborate_dropped`; src/xete_mcp/payment.py `pay_herd`), against
    endpoints that may answer anything. */
module Submission {
  import opened Wrappers
  import opened SpendLedger
  import opened SpendGuard
  import opened Payment

  const POLL_SECONDS := 0.3
  const PAYMENT_POLLS := 30

  type Signature = string

  datatype Commitment = Processed | Confirmed | Finalized

  datatype Status = Status(failed: bool, commitment: Commitment) {
    predicate Durable() {
      commitment == Confirmed || commitment == Finalized
    }
  }

  datatype StatusAnswer = Raises | Says(status: Option<Status>)

  datatype SubmitAnswer = Named(signature: Signature) | Refuses(text: string) | Silence

  /** The second endpoint's two answers, in the order they are asked for. */
  datatype Second = Second(status: StatusAnswer, alive: Option<bool>)

  /** Everything the outside world answers during one submission: whether a blockhash could be read,
      the submit call, and for each poll the status, the blockhash check, the clock reading at
      the end of the poll and what a second endpoint (if one is configured) would say. */
  datatype Script = Script(
    builds: bool,
    submit: SubmitAnswer,
    status: nat -> StatusAnswer,
    alive: nat -> Option<bool>,
    second: nat -> Option<Second>,
    clock: nat -> real)

  function Shorter(a: real, b: real): real {
    if a <= b then a else b
  }

  /** `time.sleep` sleeps at least what it is asked, and the monotonic clock never goes back. */
  ghost predicate SleepsEnough(s: Script, start: real, deadline: real) {
    && s.clock(0) >= start
    && forall i: nat :: s.clock(i) < deadline ==>
         s.clock(i + 1) >= s.clock(i) + Shorter(POLL_SECONDS, deadline - s.clock(i))
  }

  function Ceil(x: real): int {
    -((-x).Floor)
  }

  // ---- suspected drops ----

  datatype DropVerdict = DropSeen | DropUnknown | DropConfirmed

  function Corroborate(second: Option<Second>): DropVerdict {
    match second
    case None => DropUnknown
    case Some(c) =>
      if c.status.Raises? then DropUnknown
      else if c.status.status.Some? then DropSeen
      else if c.alive != Some(false) then DropUnknown
      else DropConfirmed
  }

  /** The second endpoint knows nothing of the transaction either, and calls its blockhash dead. */
  predicate AgreesOnDrop(second: Option<Second>) {
    second.Some? && second.value == Second(Says(None), Some(false))
  }

  /** The second endpoint has seen the transaction. */
  predicate HasSeenIt(second: Option<Second>) {
    second.Some? && second.value.status.Says? && second.value.status.status.Some?
  }

  lemma CorroborateIff(second: Option<Second>)
    ensures Corroborate(second) == DropConfirmed <==> second.Some? && second.value.status == Says(None) && second.value.alive == Some(false)
    ensures Corroborate(second) == DropConfirmed <==> AgreesOnDrop(second)
    ensures Corroborate(second) == DropSeen <==> HasSeenIt(second)
  {
  }

  predicate ShowsNothing(a: StatusAnswer) {
    a == Says(None)
  }

  predicate Settles(a: StatusAnswer, failed: bool) {
    a.Says? && a.status.Some? && a.status.value.commitment != Processed && a.status.value.failed == failed
  }

  predicate Undecided(a: StatusAnswer) {
    a.Says? && (a.status.Some? ==> a.status.value.commitment == Processed)
  }

  /** Every twentieth poll that shows nothing asks about the blockhash. */
  predicate AsksAt(j: nat) {
    j % 20 == 19
  }

  /** A poll that ends the search for a drop: a status, or a blockhash called dead. */
  predicate Stirs(s: Script, j: nat) {
    !ShowsNothing(s.status(j)) || (AsksAt(j) && s.alive(j) == Some(false))
  }

  /** The one poll at which a second endpoint is consulted. */
  ghost predicate FirstSuspicion(s: Script, n: nat) {
    && AsksAt(n) && ShowsNothing(s.status(n)) && s.alive(n) == Some(false)
    && forall j: nat :: j < n ==> !Stirs(s, j)
  }

  /** All the evidence a "dropped" verdict rests on, taken at the last of `polls` polls. */
  ghost predicate DropEvidence(s: Script, polls: nat) {
    && polls >= 1
    && (forall j: nat :: j < polls ==> ShowsNothing(s.status(j)))
    && s.alive(polls - 1) == Some(false)
    && s.second(polls - 1).Some?
    && ShowsNothing(s.second(polls - 1).value.status)
    && s.second(polls - 1).value.alive == Some(false)
  }

  lemma SuspicionConfirmed(s: Script, n: nat)
    requires FirstSuspicion(s, n) && AgreesOnDrop(s.second(n))
    ensures DropEvidence(s, n + 1)
  {
    forall j: nat | j < n + 1 ensures ShowsNothing(s.status(j)) {
      assert j < n ==> !Stirs(s, j);
    }
  }

  // ---- the watch ----

  /** Poll `j` leaves everything open: nothing durable, the deadline not reached, no unanswered suspicion. */
  ghost predicate GoesOn(s: Script, j: nat, deadline: real) {
    && Undecided(s.status(j)) && s.clock(j) < deadline
    && (FirstSuspicion(s, j) ==> HasSeenIt(s.second(j)))
  }

  /** The watch ends with its first poll that does not leave everything open. */
  ghost predicate EndsWith(s: Script, polls: nat, deadline: real) {
    polls >= 1 && !GoesOn(s, polls - 1, deadline) && forall j: nat :: j < polls - 1 ==> GoesOn(s, j, deadline)
  }

  datatype Watch = Landed | Failed | Dropped | Uncorroborated | TimedOut | Interrupted

  // ---- the calls a watch makes ----

  /** One request: to the first endpoint for the status or the blockhash, or to the second. */
  datatype Call = StatusOf(poll: nat) | AliveOf(poll: nat) | SecondStatusOf(poll: nat) | SecondAliveOf(poll: nat)

  function SecondCalls(second: Option<Second>, n: nat): seq<Call> {
    match second
    case None => []
    case Some(c) => [SecondStatusOf(n)] + (if ShowsNothing(c.status) then [SecondAliveOf(n)] else [])
  }

  /** The requests of poll `n`, in the order they are made. */
  ghost function CallsAt(s: Script, n: nat): seq<Call> {
    if AsksAt(n) && ShowsNothing(s.status(n)) && forall j: nat :: j < n ==> !Stirs(s, j)
    then [StatusOf(n), AliveOf(n)] + (if s.alive(n) == Some(false) then SecondCalls(s.second(n), n) else [])
    else [StatusOf(n)]
  }

  ghost function CallsOf(s: Script, polls: nat): seq<Call> {
    if polls == 0 then [] else CallsOf(s, polls - 1) + CallsAt(s, polls - 1)
  }

  /** Asks the second endpoint, if there is one, for the status and then, only if it has none, for the
      blockhash. */
  method AskSecond(second: Option<Second>, n: nat) returns (v: DropVerdict, calls: seq<Call>)
    ensures v == Corroborate(second) && calls == SecondCalls(second, n)
  {
    calls := [];
    if second.None? {
      return DropUnknown, calls;
    }
    var st := second.value.status;
    calls := calls + [SecondStatusOf(n)];
    if st.Raises? {
      return DropUnknown, calls;
    }
    if st.status.Some? {
      return DropSeen, calls;
    }
    calls := calls + [SecondAliveOf(n)];
    v := if second.value.alive != Some(false) then DropUnknown else DropConfirmed;
  }

  /** Polls until a durable status, a suspected drop that is not contradicted, an exception or the
      deadline. The verdict is tied to the answers in both directions, and the deadline bounds the
      number of polls. */
  method AwaitConfirmation(s: Script, start: real, budget: real)
    returns (v: Watch, polls: nat, excursions: nat, calls: seq<Call>)
    requires budget > 0.0 && SleepsEnough(s, start, start + budget)
    ensures 1 <= polls <= Ceil(budget / POLL_SECONDS) + 1
    ensures excursions <= 1
    ensures EndsWith(s, polls, start + budget)
    ensures v == Landed <==> Settles(s.status(polls - 1), false)
    ensures v == Failed <==> Settles(s.status(polls - 1), true)
    ensures v == Interrupted <==> s.status(polls - 1).Raises?
    ensures v == Dropped <==> FirstSuspicion(s, polls - 1) && AgreesOnDrop(s.second(polls - 1))
    ensures v == Uncorroborated <==>
              FirstSuspicion(s, polls - 1) && !AgreesOnDrop(s.second(polls - 1)) && !HasSeenIt(s.second(polls - 1))
    ensures v == TimedOut ==> s.clock(polls - 1) >= start + budget
    ensures v == Dropped ==> DropEvidence(s, polls)
    ensures calls == CallsOf(s, polls)
  {
    hide Ceil, DropEvidence, Corroborate, SleepsEnough, SecondCalls, CallsAt, CallsOf, AgreesOnDrop, HasSeenIt;
    var deadline := start + budget;
    var seen := false;
    ghost var first: nat := 0;
    var i: nat := 0;
    excursions, calls := 0, [];
    NoCallsYet(s);
    while true
      invariant calls == CallsOf(s, i)
      invariant i > 0 ==> s.clock(i - 1) < deadline
      invariant i == 0 || s.clock(i - 1) >= start + POLL_SECONDS * (i - 1) as real
      invariant forall j: nat :: j < i ==> GoesOn(s, j, deadline)
      invariant !seen ==> forall j: nat :: j < i ==> !Stirs(s, j)
      invariant seen ==> first < i && Stirs(s, first)
      invariant excursions <= 1 && (excursions == 1 ==> seen)
      decreases Ceil(budget / POLL_SECONDS) + 1 - i
    {
      PollsLeft(s, start, budget, i);
      polls := i + 1;
      var st := s.status(i);
      calls := calls + [StatusOf(i)];
      OnePollMore(s, i, !seen && AsksAt(i) && ShowsNothing(st));
      if st.Raises? {
        v := Interrupted;
        return;
      }
      if st.status.Some? {
        if st.status.value.failed && st.status.value.Durable() {
          v := Failed;
          return;
        }
        if st.status.value.Durable() {
          v := Landed;
          return;
        }
        seen, first := true, i;
      } else if !seen && i % 20 == 19 {
        calls := calls + [AliveOf(i)];
        if s.alive(i) == Some(false) {
          excursions := excursions + 1;
          var verdict, asked := AskSecond(s.second(i), i);
          calls := calls + asked;
          CorroborateIff(s.second(i));
          assert FirstSuspicion(s, i);
          if verdict == DropConfirmed {
            SuspicionConfirmed(s, i);
            v := Dropped;
            return;
          }
          if verdict == DropSeen {
            seen, first := true, i;
          } else {
            v := Uncorroborated;
            return;
          }
        }
      }
      if deadline - s.clock(i) <= 0.0 {
        v := TimedOut;
        return;
      }
      ClockMoves(s, start, deadline, i);
      i := i + 1;
    }
  }

  lemma NoCallsYet(s: Script)
    ensures CallsOf(s, 0) == []
  {
  }

  lemma OnePollMore(s: Script, i: nat, asks: bool)
    requires asks <==> AsksAt(i) && ShowsNothing(s.status(i)) && forall j: nat :: j < i ==> !Stirs(s, j)
    ensures CallsOf(s, i + 1)
         == CallsOf(s, i) + [StatusOf(i)]
            + (if !asks then []
               else [AliveOf(i)] + (if s.alive(i) == Some(false) then SecondCalls(s.second(i), i) else []))
  {
  }

  lemma PollsLeft(s: Script, start: real, budget: real, i: nat)
    requires budget > 0.0
    requires i > 0 ==> start + POLL_SECONDS * (i - 1) as real <= s.clock(i - 1) < start + budget
    ensures i < Ceil(budget / POLL_SECONDS) + 1
  {
    var x := budget / POLL_SECONDS;
    assert budget == x * POLL_SECONDS;
    if i > 0 {
      assert POLL_SECONDS * (i - 1) as real < budget;
      assert (i - 1) as real < x;
      assert (-x).Floor as real <= -x;
    } else {
      assert x > 0.0 && (-x).Floor as real <= -x;
    }
  }

  lemma ClockMoves(s: Script, start: real, deadline: real, i: nat)
    requires SleepsEnough(s, start, deadline) && s.clock(i) < deadline
    requires i == 0 || s.clock(i - 1) < deadline
    requires i == 0 || s.clock(i - 1) >= start + POLL_SECONDS * (i - 1) as real
    ensures s.clock(i) >= start + POLL_SECONDS * i as real
  {
    if i > 0 {
      var k: nat := i - 1;
      assert s.clock(k + 1) >= s.clock(k) + Shorter(POLL_SECONDS, deadline - s.clock(k));
    }
  }

  // ---- the submit ----

  datatype Outcome = Unconfirmed | WasDropped | Rejected | FailedOnChain

  datatype Sent = NeverBuilt | Settled(signature: Signature) | Error(signature: Signature, outcome: Outcome)

  /** What a whole submission comes to. Only the local signature is ever reported. */
  ghost predicate SendVerdict(s: Script, local: Signature, deadline: real, r: Sent, polls: nat) {
    if !s.builds then r == NeverBuilt
    else if s.submit.Refuses? then r == Error(local, if TellsOfProcessing(s.submit.text) then Unconfirmed else Rejected)
    else if s.submit != Named(local) then r == Error(local, Unconfirmed)
    else
      && EndsWith(s, polls, deadline)
      && (r == Settled(local) || (r.Error? && r.signature == local && r.outcome != Rejected))
      && (r.Settled? <==> Settles(s.status(polls - 1), false))
      && (r == Error(local, FailedOnChain) <==> Settles(s.status(polls - 1), true))
      && (r == Error(local, WasDropped) <==>
            FirstSuspicion(s, polls - 1) && AgreesOnDrop(s.second(polls - 1)))
  }

  /** Signs locally, submits and watches. */
  method Send(s: Script, local: Signature, start: real, budget: real) returns (r: Sent, polls: nat)
    requires budget > 0.0 && SleepsEnough(s, start, start + budget)
    ensures SendVerdict(s, local, start + budget, r, polls)
    ensures r.Error? && r.outcome == WasDropped ==> DropEvidence(s, polls)
    ensures polls <= Ceil(budget / POLL_SECONDS) + 1
  {
    hide EndsWith, DropEvidence, AgreesOnDrop, FirstSuspicion, SleepsEnough, SaysAlreadyProcessed, TellsOfProcessing;
    polls := 0;
    AtLeastOnePoll(budget);
    if !s.builds {
      return NeverBuilt, polls;
    }
    match s.submit {
      case Refuses(text) =>
        AlreadyProcessedIff(text);
        r := Error(local, if SaysAlreadyProcessed(text) then Unconfirmed else Rejected);
      case Silence =>
        r := Error(local, Unconfirmed);
      case Named(returned) =>
        if returned != local {
          return Error(local, Unconfirmed), polls;
        }
        var v, n, _, _ := AwaitConfirmation(s, start, budget);
        polls := n;
        r := match v
          case Landed => Settled(local)
          case Failed => Error(local, FailedOnChain)
          case Dropped => Error(local, WasDropped)
          case _ => Error(local, Unconfirmed);
    }
  }

  lemma AtLeastOnePoll(budget: real)
    requires budget > 0.0
    ensures Ceil(budget / POLL_SECONDS) >= 0
  {
  }

  // ---- is "dropped" true? ----

  /** One linear chain: the slot the transaction landed in, if it ever does, and the last slot at
      which its blockhash is usable. */
  datatype Chain = Chain(landsAt: Option<nat>, lastUsable: nat) {
    predicate Lawful() {
      landsAt.Some? ==> landsAt.value <= lastUsable
    }
  }

  /** A truthful "no status" read at a slot, and a truthful "dead blockhash" read at a slot. */
  predicate NotYetAt(c: Chain, slot: nat) {
    c.landsAt.Some? ==> c.landsAt.value > slot
  }

  predicate DeadAt(c: Chain, slot: nat) {
    c.lastUsable < slot
  }

  /** A truthful dead-blockhash read together with a truthful no-status read proves that the
      transaction can never land exactly when the no-status read did not come first (a gap of one
      slot is still safe). */
  lemma DropSoundIff(deadSlot: nat, statusSlot: nat)
    ensures (forall c: Chain :: c.Lawful() && DeadAt(c, deadSlot) && NotYetAt(c, statusSlot) ==> c.landsAt.None?)
        <==> deadSlot <= statusSlot + 1
  {
    if deadSlot > statusSlot + 1 {
      var c := Chain(Some(statusSlot + 1), statusSlot + 1);
      assert c.Lawful() && DeadAt(c, deadSlot) && NotYetAt(c, statusSlot) && c.landsAt.Some?;
    }
  }

  /** The chain does not go back between one request and the next. */
  ghost predicate InOrder(calls: seq<Call>, at: Call -> nat) {
    forall i, j :: 0 <= i < j < |calls| ==> at(calls[i]) <= at(calls[j])
  }

  /** The last requests of a watch that ends in a corroborated drop. */
  lemma LastCalls(s: Script, n: nat)
    requires FirstSuspicion(s, n) && AgreesOnDrop(s.second(n))
    ensures CallsOf(s, n + 1) == CallsOf(s, n) + [StatusOf(n), AliveOf(n), SecondStatusOf(n), SecondAliveOf(n)]
  {
  }

  /** A verdict "dropped" is right when the first endpoint's dead-blockhash read and the second's no-status
      read are truthful: the watch made them in this order, and the chain does not go back. */
  lemma DroppedIsSound(s: Script, polls: nat, calls: seq<Call>, c: Chain, at: Call -> nat)
    requires polls >= 1 && FirstSuspicion(s, polls - 1) && AgreesOnDrop(s.second(polls - 1))
    requires calls == CallsOf(s, polls) && InOrder(calls, at) && c.Lawful()
    requires s.alive(polls - 1) == Some(false) ==> DeadAt(c, at(AliveOf(polls - 1)))
    requires ShowsNothing(s.second(polls - 1).value.status) ==> NotYetAt(c, at(SecondStatusOf(polls - 1)))
    ensures c.landsAt.None?
  {
    var n := polls - 1;
    LastCalls(s, n);
    var k := |CallsOf(s, n)|;
    assert calls[k + 1] == AliveOf(n) && calls[k + 2] == SecondStatusOf(n);
    DropSoundIff(at(AliveOf(n)), at(SecondStatusOf(n)));
  }

  lemma {:induction false} CallsAreOfPolls(s: Script, n: nat)
    ensures forall i :: 0 <= i < |CallsOf(s, n)| ==> CallsOf(s, n)[i].poll < n
  {
    if n > 0 {
      CallsAreOfPolls(s, n - 1);
    }
  }

  ghost predicate LandsDespite(s: Script, n: nat, c: Chain, at: Call -> nat) {
    && c.Lawful() && c.landsAt.Some? && InOrder(CallsOf(s, n + 1), at)
    && NotYetAt(c, at(SecondStatusOf(n))) && DeadAt(c, at(SecondAliveOf(n)))
  }

  /** The second endpoint's word alone is never enough: behind every "dropped" there can be a chain on which
      both of its answers are truthful, in the order they were asked for, and the transaction lands. */
  lemma SecondAloneIsNotEnough(s: Script, n: nat)
    requires FirstSuspicion(s, n) && AgreesOnDrop(s.second(n))
    ensures exists c: Chain, at: Call -> nat :: LandsDespite(s, n, c, at)
  {
    LastCalls(s, n);
    CallsAreOfPolls(s, n);
    var c := Chain(Some(6), 6);
    var at: Call -> nat := (call: Call) => if call == SecondAliveOf(n) then 7 else 5;
    assert LandsDespite(s, n, c, at);
  }

  // ---- the payment ----

  datatype Paid =
    | NotApproved(why: Refusal)
    | NotBuilt
    | PaidFor(signature: Signature)
    | ErrorSeen(signature: Signature)
    | RefusedAtSubmit(signature: Signature)
    | Unknown(signature: Signature)

  predicate ShowsError(a: StatusAnswer) {
    a.Says? && a.status.Some? && a.status.value.failed
  }

  /** The verdict is given by the first poll that shows an error or a durable status, if any. */
  ghost predicate PaymentVerdict(s: Script, landed: bool, failed: bool, polls: nat) {
    && polls <= PAYMENT_POLLS
    && (landed ==> polls >= 1 && Settles(s.status(polls - 1), false))
    && (failed ==> polls >= 1 && ShowsError(s.status(polls - 1)))
    && !(landed && failed) && (!landed && !failed ==> polls == PAYMENT_POLLS)
    && forall j: nat :: j < (if landed || failed then polls - 1 else polls)
                        ==> !Settles(s.status(j), false) && !ShowsError(s.status(j))
  }

  /** Thirty polls; an unreadable poll is skipped, any error status ends the watch. */
  method WatchPayment(s: Script) returns (landed: bool, failed: bool, polls: nat)
    ensures PaymentVerdict(s, landed, failed, polls)
  {
    for i := 0 to PAYMENT_POLLS
      invariant forall j: nat :: j < i ==> !Settles(s.status(j), false) && !ShowsError(s.status(j))
    {
      var st := s.status(i);
      if st.Says? && st.status.Some? {
        if st.status.value.failed {
          return false, true, i + 1;
        }
        if st.status.value.Durable() {
          return true, false, i + 1;
        }
      }
    }
    return false, false, PAYMENT_POLLS;
  }

  /** What an approved payment comes to, for every way the outside world can answer. */
  ghost predicate PaidVerdict(s: Script, local: Signature, r: Paid, polls: nat) {
    if !s.builds then r == NotBuilt
    else if s.submit.Refuses? then r == if TellsOfProcessing(s.submit.text) then Unknown(local) else RefusedAtSubmit(local)
    else if s.submit != Named(local) then r == Unknown(local)
    else
      && PaymentVerdict(s, r == PaidFor(local), r == ErrorSeen(local), polls)
      && (r == PaidFor(local) || r == ErrorSeen(local) || r == Unknown(local))
  }

  lemma RecordedHasEntry(limits: Limits, l: Ledger, clock: real, charged: nat, path: string, detail: string)
    ensures Recorded(limits, l, clock, charged, path, detail).entries != []
  {
  }

  /** Gate, build, submit, watch. The approval is recorded before anything is built; it is given back
      exactly when nothing was built or the endpoint refused at preflight for any reason other than
      having the transaction already; "paid" needs a durable status without error of the signature
      computed here. */
  method PayHerd(g: Guard, s: Script, k: Kind, token: string, rest: string, local: Signature, clock: real,
                 io: Io, undo: Io)
    returns (r: Paid, ghost polls: nat)
    requires k.Herd?
    modifies g`file
    ensures r.NotApproved? <==>
              !(Charge(g.limits, Asks(k)).Success? && io.lockOpens && old(g.Now()).Success?
                && Fits(g.limits, old(g.Now()).value, clock, Charge(g.limits, Asks(k)).value) && io.writes)
    ensures r.NotApproved? ==> g.file == old(g.file)
    ensures !r.NotApproved? ==>
              var charged := Charge(g.limits, Asks(k)).value;
              var recorded := Recorded(g.limits, old(g.Now()).value, clock, charged, SEND_LABEL, Detail(token, rest));
              g.Now() == Success(
                   if (!s.builds || (s.submit.Refuses? && !TellsOfProcessing(s.submit.text))) && undo.lockOpens && undo.writes
                   then GivenBack(recorded, SEND_LABEL, Detail(token, rest), charged)
                   else recorded)
    ensures !r.NotApproved? ==> PaidVerdict(s, local, r, polls)
  {
    hide Recorded, GivenBack, Fits, Charge, PaymentVerdict, Detail, SaysAlreadyProcessed, TellsOfProcessing;
    polls := 0;
    var detail := Detail(token, rest);
    var approval := g.Authorize(Asks(k), clock, SEND_LABEL, detail, io);
    if approval.Failure? {
      return NotApproved(approval.error), polls;
    }
    RecordedHasEntry(g.limits, old(g.Now()).value, clock, approval.value.charged, SEND_LABEL, detail);
    if !s.builds {
      g.Release(detail, approval.value.charged, SEND_LABEL, undo);
      return NotBuilt, polls;
    }
    match s.submit {
      case Refuses(text) =>
        AlreadyProcessedIff(text);
        if SaysAlreadyProcessed(text) {
          return Unknown(local), polls;
        }
        g.Release(detail, approval.value.charged, SEND_LABEL, undo);
        return RefusedAtSubmit(local), polls;
      case Silence =>
        return Unknown(local), polls;
      case Named(returned) =>
        if returned != local {
          return Unknown(local), polls;
        }
        var landed, failed, n := WatchPayment(s);
        polls := n;
        r := if failed then ErrorSeen(local) else if landed then PaidFor(local) else Unknown(local);
    }
  }

  // ---- what a report is worth ----

  predicate IsDurable(a: StatusAnswer) {
    a.Says? && a.status.Some? && a.status.value.commitment != Processed
  }

  /** Answers of an endpoint that tells the truth: once it shows a durable status, every later answer shows
      that outcome as durable. A status that is not durable may be forked away and replaced by anything. */
  ghost predicate Truthful(answers: seq<StatusAnswer>) {
    forall i, j :: 0 <= i < j < |answers| && IsDurable(answers[i]) && answers[j].Says?
                   ==> IsDurable(answers[j]) && answers[j].status.value.failed == answers[i].status.value.failed
  }

  /** The answers a watch has seen. */
  function Observed(s: Script, polls: nat): seq<StatusAnswer> {
    seq(polls, (i: nat) => s.status(i))
  }

  /** One of these answers settles the transaction, with or without an error. */
  ghost predicate Shows(answers: seq<StatusAnswer>, failed: bool) {
    exists j :: 0 <= j < |answers| && Settles(answers[j], failed)
  }

  /** A durable status is final: no truthful continuation ever shows the opposite outcome. */
  lemma DurableIsFinal(s: Script, polls: nat, failed: bool, later: seq<StatusAnswer>)
    requires polls >= 1 && Settles(s.status(polls - 1), failed) && Truthful(Observed(s, polls) + later)
    ensures !Shows(later, !failed)
  {
    var all := Observed(s, polls) + later;
    forall j | 0 <= j < |later| ensures !Settles(later[j], !failed) {
      assert all[polls - 1] == s.status(polls - 1) && all[polls + j] == later[j];
    }
  }

  /** The payment watch reports "confirmed on chain and failed" on an error at any commitment, though the
      settlement watch waits for a durable one. After such a report there is a truthful continuation in
      which the payment settles without error if and only if the status that ended the watch was not
      durable. */
  lemma ErrorReportIsRevisableIff(s: Script, polls: nat)
    requires PaymentVerdict(s, false, true, polls)
    ensures (exists later :: Truthful(Observed(s, polls) + later) && Shows(later, false))
        <==> !IsDurable(s.status(polls - 1))
  {
    if IsDurable(s.status(polls - 1)) {
      forall later | Truthful(Observed(s, polls) + later) ensures !Shows(later, false) {
        DurableIsFinal(s, polls, true, later);
      }
    } else {
      var settled := Says(Some(Status(false, Finalized)));
      var later := [settled];
      var all := Observed(s, polls) + later;
      forall i | 0 <= i < polls ensures !IsDurable(all[i]) {
        assert all[i] == s.status(i);
      }
      assert Settles(later[0], false);
      assert Truthful(all) && Shows(later, false);
    }
  }

  /** A report of success is never revised. */
  lemma PaidReportIsFinal(s: Script, polls: nat, later: seq<StatusAnswer>)
    requires PaymentVerdict(s, true, false, polls) && Truthful(Observed(s, polls) + later)
    ensures !Shows(later, true)
  {
    DurableIsFinal(s, polls, false, later);
  }

  // ---- the deposit ----

  datatype Deposited = Unbuildable | Gated(why: Refusal) | TicketFailed | Over(result: Sent)

  /** The deposit: an amount that cannot fund its escrow never reaches the gate; the charge is given
      back only for failures before the submit call. */
  method OpenDeposit(g: Guard, s: Script, amount: int, token: string, rest: string, local: Signature, ticketOk: bool,
                     clock: real, start: real, budget: real, io: Io, undo: Io)
    returns (r: Deposited, ghost polls: nat)
    requires budget > 0.0 && SleepsEnough(s, start, start + budget)
    modifies g`file
    ensures r == Unbuildable <==> amount < 1_454_640
    ensures r.Gated? <==>
              && amount >= 1_454_640
              && !(Charge(g.limits, amount).Success? && io.lockOpens && old(g.Now()).Success?
                   && Fits(g.limits, old(g.Now()).value, clock, Charge(g.limits, amount).value) && io.writes)
    ensures r.Unbuildable? || r.Gated? ==> g.file == old(g.file)
    ensures r.TicketFailed? || r.Over? ==>
              var recorded := Recorded(g.limits, old(g.Now()).value, clock, Charge(g.limits, amount).value,
                                       DEPOSIT_LABEL, Detail(token, rest));
              g.Now() == Success(
                   if (r.TicketFailed? || r.result.NeverBuilt?) && undo.lockOpens && undo.writes
                   then GivenBack(recorded, DEPOSIT_LABEL, Detail(token, rest), amount)
                   else recorded)
    ensures r.TicketFailed? || r.Over? ==> (r.TicketFailed? <==> !ticketOk)
    ensures r.Over? ==> SendVerdict(s, local, start + budget, r.result, polls)
  {
    polls := 0;
    if amount <= 0 || amount < RENT_EXEMPT_LAMPORTS {
      return Unbuildable, polls;
    }
    var detail := Detail(token, rest);
    var approval := g.Authorize(amount, clock, DEPOSIT_LABEL, detail, io);
    if approval.Failure? {
      return Gated(approval.error), polls;
    }
    if !ticketOk {
      g.Release(detail, amount, DEPOSIT_LABEL, undo);
      return TicketFailed, polls;
    }
    var sent;
    sent, polls := Send(s, local, start, budget);
    if sent.NeverBuilt? {
      g.Release(detail, amount, DEPOSIT_LABEL, undo);
    }
    r := Over(sent);
  }
}
