/** The machines of the spending code put together: what the payment and the deposit do to the ledger file
    is a path of the end-to-end protocol, and the cap of that protocol holds for the file that the small
    interleaved steps of many processes leave on disk. */
module Composition {
  import opened Wrappers
  import opened SpendLedger
  import opened SpendRuns
  import opened SpendGuard
  import opened Payment
  import opened Submission
  import P = SpendProtocol
  import L = LockMachine
  import LockProtocol

  // ---- callers as paths ----

  lemma {:induction false} ExecAppend(limits: Limits, a: seq<P.Action>, b: seq<P.Action>)
    ensures P.Exec(limits, a + b) == Continue(limits, P.Exec(limits, a), b)
  {
    hide P.Do;
    if b == [] {
      assert a + b == a;
    } else {
      assert (a + b)[..|a + b| - 1] == a + b[..|b| - 1];
      ExecAppend(limits, a, b[..|b| - 1]);
    }
  }

  function Continue(limits: Limits, w: P.World, acts: seq<P.Action>): P.World {
    if acts == [] then w else P.Do(limits, Continue(limits, w, acts[..|acts| - 1]), acts[|acts| - 1])
  }

  /** What one caller does between its approval and its end, for each way the attempt can go. */
  datatype Course = Unbuilt | RefusedWith(text: string) | Watched

  function PathOf(k: Kind, token: string, rest: string, clock: real, saved: bool, i: nat, course: Course, undone: bool): seq<P.Action> {
    [P.Ask(k, token, rest, clock, saved)]
    + match course
      case Unbuilt => [P.BuildFails(i), P.Undo(i, undone)]
      case RefusedWith(text) => [P.Build(i), P.Submit(i), P.PreflightRefuses(i, text), P.Undo(i, undone)]
      case Watched => [P.Build(i), P.Submit(i), P.StopWatching(i)]
  }

  /** An approved attempt, appended. */
  lemma Asked(limits: Limits, w: P.World, k: Kind, token: string, rest: string, clock: real)
    requires P.Fresh(w.attempts, k, token) && ReachesGate(k)
    requires Charge(limits, Asks(k)).Success? && Fits(limits, w.run.ledger, clock, Charge(limits, Asks(k)).value)
    ensures var w1 := P.DoAsk(limits, w, k, token, rest, clock, true);
            && |w1.attempts| == |w.attempts| + 1
            && w1.run.ledger == Recorded(limits, w.run.ledger, clock, Charge(limits, Asks(k)).value, Label(k), Detail(token, rest))
            && var a := w1.attempts[|w.attempts|];
            && a.kind == k && a.token == token && a.rest == rest && a.stage == P.Cleared && !a.landed && !a.released
            && !a.sent && !a.refused && a.entry.lamports == Charge(limits, Asks(k)).value
  {
    hide Recorded, Fits, Charge, Detail;
  }

  lemma Undone(limits: Limits, w: P.World, i: nat, saved: bool)
    requires i < |w.attempts| && w.attempts[i].stage == P.Undoing
    ensures var a := w.attempts[i];
            P.Do(limits, w, P.Undo(i, saved)).run.ledger
            == if saved then GivenBack(w.run.ledger, Label(a.kind), Detail(a.token, a.rest), ReleaseAmount(a.kind, a.entry.lamports))
               else w.run.ledger
  {
    hide Detail;
  }

  lemma Unfold2(limits: Limits, w: P.World, a: P.Action, b: P.Action, c: P.Action)
    ensures Continue(limits, w, [a, b, c]) == P.Do(limits, P.Do(limits, P.Do(limits, w, a), b), c)
  {
    hide P.Do;
    assert [a, b, c][..2] == [a, b] && [a, b][..1] == [a] && [a][..0] == [];
    assert Continue(limits, w, [a]) == P.Do(limits, w, a);
    assert Continue(limits, w, [a, b]) == P.Do(limits, Continue(limits, w, [a]), b);
  }

  lemma {:induction false} ContinueAppend(limits: Limits, w: P.World, a: seq<P.Action>, b: seq<P.Action>)
    ensures Continue(limits, w, a + b) == Continue(limits, Continue(limits, w, a), b)
  {
    hide P.Do;
    if b == [] {
      assert a + b == a;
    } else {
      assert (a + b)[..|a + b| - 1] == a + b[..|b| - 1];
      ContinueAppend(limits, w, a, b[..|b| - 1]);
    }
  }

  lemma Unfold1(limits: Limits, w: P.World, a: P.Action)
    ensures Continue(limits, w, [a]) == P.Do(limits, w, a)
  {
    hide P.Do;
    assert [a][..0] == [];
  }

  /** A cleared attempt that has not been sent. */
  predicate JustCleared(w: P.World, i: nat) {
    && i < |w.attempts| && w.attempts[i].stage == P.Cleared
    && !w.attempts[i].landed && !w.attempts[i].sent && !w.attempts[i].refused
  }

  function Returned(l: Ledger, a: P.Attempt, undone: bool): Ledger {
    if undone then GivenBack(l, Label(a.kind), Detail(a.token, a.rest), ReleaseAmount(a.kind, a.entry.lamports)) else l
  }

  lemma UnbuiltCourse(limits: Limits, w: P.World, i: nat, undone: bool)
    requires JustCleared(w, i)
    ensures Continue(limits, w, [P.BuildFails(i), P.Undo(i, undone)]).run.ledger
         == Returned(w.run.ledger, w.attempts[i], undone)
  {
    hide GivenBack, Detail;
    ContinueAppend(limits, w, [P.BuildFails(i)], [P.Undo(i, undone)]);
    assert [P.BuildFails(i)] + [P.Undo(i, undone)] == [P.BuildFails(i), P.Undo(i, undone)];
    Unfold1(limits, w, P.BuildFails(i));
    var w1 := P.Do(limits, w, P.BuildFails(i));
    Unfold1(limits, w1, P.Undo(i, undone));
    hide Continue;
    Undone(limits, w1, i, undone);
  }

  /** Three steps of one attempt that leave the ledger alone. */
  lemma SentCourse(limits: Limits, w: P.World, i: nat, last: P.Action)
    requires JustCleared(w, i)
    requires last == P.StopWatching(i)
             || (last.PreflightRefuses? && last.i == i && w.attempts[i].kind.Herd? && !TellsOfProcessing(last.text))
    ensures var w3 := Continue(limits, w, [P.Build(i), P.Submit(i), last]);
            && w3.run == w.run && |w3.attempts| == |w.attempts|
            && w3.attempts[i].entry == w.attempts[i].entry && w3.attempts[i].kind == w.attempts[i].kind
            && w3.attempts[i].token == w.attempts[i].token && w3.attempts[i].rest == w.attempts[i].rest
            && (last.PreflightRefuses? ==> w3.attempts[i].stage == P.Undoing)
  {
    Unfold2(limits, w, P.Build(i), P.Submit(i), last);
    if last.PreflightRefuses? {
      AlreadyProcessedIff(last.text);
    }
    hide Continue, SaysAlreadyProcessed, TellsOfProcessing;
  }

  lemma RefusedCourse(limits: Limits, w: P.World, i: nat, text: string, undone: bool)
    requires JustCleared(w, i) && w.attempts[i].kind.Herd? && !TellsOfProcessing(text)
    ensures Continue(limits, w, [P.Build(i), P.Submit(i), P.PreflightRefuses(i, text), P.Undo(i, undone)]).run.ledger
         == Returned(w.run.ledger, w.attempts[i], undone)
  {
    hide GivenBack, Detail, SaysAlreadyProcessed, TellsOfProcessing, P.Do;
    var three, undo := [P.Build(i), P.Submit(i), P.PreflightRefuses(i, text)], P.Undo(i, undone);
    assert three + [undo] == [P.Build(i), P.Submit(i), P.PreflightRefuses(i, text), undo];
    ContinueAppend(limits, w, three, [undo]);
    SentCourse(limits, w, i, P.PreflightRefuses(i, text));
    Unfold1(limits, Continue(limits, w, three), undo);
    Undone(limits, Continue(limits, w, three), i, undone);
  }

  /** The ledger at the end of an approved caller's path: the recorded charge, given back where nothing was
      built or a payment was refused at preflight for good. */
  lemma PathLedger(limits: Limits, w: P.World, k: Kind, token: string, rest: string, clock: real, course: Course, undone: bool)
    requires P.Fresh(w.attempts, k, token) && ReachesGate(k)
    requires Charge(limits, Asks(k)).Success? && Fits(limits, w.run.ledger, clock, Charge(limits, Asks(k)).value)
    requires course.RefusedWith? ==> k.Herd? && !TellsOfProcessing(course.text)
    ensures var charged := Charge(limits, Asks(k)).value;
            var recorded := Recorded(limits, w.run.ledger, clock, charged, Label(k), Detail(token, rest));
            Continue(limits, w, PathOf(k, token, rest, clock, true, |w.attempts|, course, undone)).run.ledger
            == if !course.Watched? && undone
               then GivenBack(recorded, Label(k), Detail(token, rest), ReleaseAmount(k, charged)) else recorded
  {
    var i, ask := |w.attempts|, P.Ask(k, token, rest, clock, true);
    Asked(limits, w, k, token, rest, clock);
    var w1 := P.DoAsk(limits, w, k, token, rest, clock, true);
    Unfold1(limits, w, ask);
    assert Continue(limits, w, [ask]) == w1 && JustCleared(w1, i);
    hide Recorded, Fits, Charge, Detail, GivenBack, P.DoAsk, P.Do, SaysAlreadyProcessed, TellsOfProcessing, P.Fresh, Continue, JustCleared;
    match course {
      case Unbuilt =>
        ContinueAppend(limits, w, [ask], [P.BuildFails(i), P.Undo(i, undone)]);
        UnbuiltCourse(limits, w1, i, undone);
      case RefusedWith(text) =>
        ContinueAppend(limits, w, [ask], [P.Build(i), P.Submit(i), P.PreflightRefuses(i, text), P.Undo(i, undone)]);
        RefusedCourse(limits, w1, i, text, undone);
      case Watched =>
        ContinueAppend(limits, w, [ask], [P.Build(i), P.Submit(i), P.StopWatching(i)]);
        SentCourse(limits, w1, i, P.StopWatching(i));
    }
  }

  lemma RefusedAsk(limits: Limits, w: P.World, k: Kind, token: string, rest: string, clock: real, saved: bool)
    requires !saved || Charge(limits, Asks(k)).Failure? || !Fits(limits, w.run.ledger, clock, Charge(limits, Asks(k)).value)
    ensures Continue(limits, w, [P.Ask(k, token, rest, clock, saved)]) == w
  {
    Unfold1(limits, w, P.Ask(k, token, rest, clock, saved));
  }

  /** A payment, run on the file, is a path of the protocol: in whatever state of it the call finds the
      ledger, the call leaves the ledger of a continuation by this caller's own steps. */
  method PayHerdOnPath(g: Guard, ghost acts: seq<P.Action>, s: Script, k: Kind, token: string, rest: string,
                       local: Signature, clock: real, io: Io, undo: Io)
    returns (r: Paid, ghost more: seq<P.Action>)
    requires k.Herd? && g.Now() == Success(P.Exec(g.limits, acts).run.ledger)
    requires P.Fresh(P.Exec(g.limits, acts).attempts, k, token)
    modifies g`file
    ensures g.Now() == Success(P.Exec(g.limits, acts + more).run.ledger)
    ensures var i, saved, undone := |P.Exec(g.limits, acts).attempts|, io.lockOpens && io.writes, undo.lockOpens && undo.writes;
            more == if r.NotApproved? then [P.Ask(k, token, rest, clock, saved)]
                    else PathOf(k, token, rest, clock, saved, i,
                                if r.NotBuilt? then Unbuilt
                                else if r.RefusedAtSubmit? && s.submit.Refuses? then RefusedWith(s.submit.text) else Watched, undone)
  {
    ghost var w := P.Exec(g.limits, acts);
    ghost var limits := g.limits;
    hide Recorded, Fits, Charge, Detail, GivenBack, P.Exec, SaysAlreadyProcessed, TellsOfProcessing, PaymentVerdict, P.Fresh, Continue;
    ghost var polls;
    r, polls := PayHerd(g, s, k, token, rest, local, clock, io, undo);
    if r.NotApproved? {
      more := [P.Ask(k, token, rest, clock, io.lockOpens && io.writes)];
      RefusedAsk(limits, w, k, token, rest, clock, io.lockOpens && io.writes);
    } else {
      ghost var course := if r.NotBuilt? then Unbuilt else if r.RefusedAtSubmit? then RefusedWith(s.submit.text) else Watched;
      more := PathOf(k, token, rest, clock, true, |w.attempts|, course, undo.lockOpens && undo.writes);
      PathLedger(limits, w, k, token, rest, clock, course, undo.lockOpens && undo.writes);
    }
    ExecAppend(limits, acts, more);
  }

  /** And so is a deposit; one too small for its escrow takes no step at all. */
  method OpenDepositOnPath(g: Guard, ghost acts: seq<P.Action>, s: Script, amount: int, token: string, rest: string,
                           local: Signature, ticketOk: bool, clock: real, start: real, budget: real, io: Io, undo: Io)
    returns (r: Deposited, ghost more: seq<P.Action>)
    requires budget > 0.0 && SleepsEnough(s, start, start + budget)
    requires g.Now() == Success(P.Exec(g.limits, acts).run.ledger)
    requires P.Fresh(P.Exec(g.limits, acts).attempts, Deposit(amount), token)
    modifies g`file
    ensures g.Now() == Success(P.Exec(g.limits, acts + more).run.ledger)
    ensures var i, saved, undone := |P.Exec(g.limits, acts).attempts|, io.lockOpens && io.writes, undo.lockOpens && undo.writes;
            more == if r.Unbuildable? then []
                    else if r.Gated? then [P.Ask(Deposit(amount), token, rest, clock, saved)]
                    else PathOf(Deposit(amount), token, rest, clock, saved, i,
                                if r.TicketFailed? || r.result.NeverBuilt? then Unbuilt else Watched, undone)
  {
    ghost var w := P.Exec(g.limits, acts);
    ghost var limits := g.limits;
    ghost var k := Deposit(amount);
    hide Recorded, Fits, Charge, Detail, GivenBack, P.Exec, SendVerdict, P.Fresh, Continue, SleepsEnough;
    ghost var polls;
    r, polls := OpenDeposit(g, s, amount, token, rest, local, ticketOk, clock, start, budget, io, undo);
    if r.Unbuildable? {
      more := [];
      assert acts + more == acts;
    } else if r.Gated? {
      more := [P.Ask(k, token, rest, clock, io.lockOpens && io.writes)];
      RefusedAsk(limits, w, k, token, rest, clock, io.lockOpens && io.writes);
      ExecAppend(limits, acts, more);
    } else {
      ghost var course := if r.TicketFailed? || r.result.NeverBuilt? then Unbuilt else Watched;
      more := PathOf(k, token, rest, clock, true, |w.attempts|, course, undo.lockOpens && undo.writes);
      PathLedger(limits, w, k, token, rest, clock, course, undo.lockOpens && undo.writes);
      ExecAppend(limits, acts, more);
    }
  }

  // ---- the gate as a serial step ----

  /** What the gate does to the file and answers is the serial step of the lock machine, on any ledger. */
  method AuthorizeIsSerial(g: Guard, quoted: int, clock: real, path: string, detail: string, io: Io)
    returns (r: Result<Approval, Refusal>)
    requires g.Now().Success? && io.lockOpens
    modifies g`file
    ensures var op, before := Spend(quoted, clock, path, detail, io.writes), old(g.Now()).value;
            && g.Now() == Success(L.Next(g.limits, before, op))
            && match L.ReplyTo(g.limits, before, op)
               case Approved(charged, windowSpent) =>
                 r.Success? && r.value.charged == charged && r.value.windowSpent == windowSpent
               case Refused => r.Failure? && r.error != LedgerUnwritable
               case Unwritable => r == Failure(LedgerUnwritable)
               case Returned(_) => false
  {
    hide Recorded, Sum, SumAfter, After, FreesExactly, ReportCovers;
    ghost var before := g.Now().value;
    ghost var now := EffectiveNow(before.lastTs, clock);
    AfterKeepsLater(before.entries, now - g.limits.windowSeconds as real, now);
    r := g.Authorize(quoted, clock, path, detail, io);
  }

  method ReleaseIsSerial(g: Guard, path: string, detail: string, charged: int, io: Io)
    requires g.Now().Success? && io.lockOpens
    modifies g`file
    ensures var op, before := GiveBack(path, detail, charged, io.writes), old(g.Now()).value;
            && g.Now() == Success(L.Next(g.limits, before, op))
            && L.ReplyTo(g.limits, before, op)
               == L.Returned(io.writes && exists e :: e in before.entries && Matches(e, path, detail, charged))
  {
    ghost var before := g.Now().value;
    ghost var found := FindFromEnd(before.entries, path, detail, charged);
    if found.Some? {
      assert before.entries[found.value] in before.entries;
    }
    hide Matches, DropAt;
    g.Release(detail, charged, path, io);
  }

  // ---- the cap over small steps ----

  /** The ledger operations a run of the protocol performs, in order. */
  function LedgerEvents(limits: Limits, acts: seq<P.Action>): seq<Event> {
    if acts == [] then []
    else
      var front, act := acts[..|acts| - 1], acts[|acts| - 1];
      var w := P.Exec(limits, front);
      LedgerEvents(limits, front)
      + (if act.Ask? && ReachesGate(act.kind) && P.Fresh(w.attempts, act.kind, act.token)
         then [P.SpendEvent(act.kind, act.token, act.rest, act.clock, act.saved)]
         else if act.Undo? && act.i < |w.attempts| && w.attempts[act.i].stage == P.Undoing
         then [P.UndoEvent(w.attempts[act.i], act.saved)]
         else [])
  }

  lemma {:induction false} ProtocolRunsEvents(limits: Limits, acts: seq<P.Action>)
    ensures P.Exec(limits, acts).run == Run(limits, LedgerEvents(limits, acts))
  {
    if acts != [] {
      var front, act := acts[..|acts| - 1], acts[|acts| - 1];
      ProtocolRunsEvents(limits, front);
      var before, all := LedgerEvents(limits, front), LedgerEvents(limits, acts);
      OneAct(limits, P.Exec(limits, front), act);
      hide Step, P.Do, P.Fresh, ReachesGate, P.SpendEvent, P.UndoEvent;
      if all != before + [] {
        assert all[..|all| - 1] == before;
      } else {
        assert all == before;
      }
    }
  }

  /** One action moves the ledger as the event it performs, if it performs one. */
  lemma OneAct(limits: Limits, w: P.World, act: P.Action)
    ensures var run := P.Do(limits, w, act).run;
            run == if act.Ask? && ReachesGate(act.kind) && P.Fresh(w.attempts, act.kind, act.token)
                   then Step(limits, w.run, P.SpendEvent(act.kind, act.token, act.rest, act.clock, act.saved))
                   else if act.Undo? && act.i < |w.attempts| && w.attempts[act.i].stage == P.Undoing
                   then Step(limits, w.run, P.UndoEvent(w.attempts[act.i], act.saved))
                   else w.run
  {
    hide Recorded, Fits, Charge, Detail, GivenBack, P.Fresh, SaysAlreadyProcessed, TellsOfProcessing;
  }

  /** The end-to-end cap over small steps. Let any number of processes interleave and crash between locking,
      reading, writing, renaming and unlocking, and let the callers' run perform its ledger operations in the
      order in which they took effect. Then the file on disk is the ledger of that run, and what landed
      within the window is charged in that file and stays under the cap. */
  lemma LandedCapOverSmallSteps(limits: Limits, small: seq<L.Action>, acts: seq<P.Action>)
    requires L.Exec(limits, small).log == LedgerEvents(limits, acts)
    ensures var file, w := L.Exec(limits, small).file, P.Exec(limits, acts);
            var cutoff := file.lastTs - limits.windowSeconds as real;
            && file == w.run.ledger
            && P.LandedAfter(w.attempts, cutoff) <= SumAfter(file.entries, cutoff) <= limits.windowLamports
  {
    hide L.Exec, P.Exec, LedgerEvents, Run, P.WorldInv;
    LockProtocol.Linearizable(limits, small);
    ProtocolRunsEvents(limits, acts);
    P.ExecKeepsInv(limits, acts);
    P.LedgerCoversLanded(limits, P.Exec(limits, acts), L.Exec(limits, small).file.lastTs - limits.windowSeconds as real);
  }
}
