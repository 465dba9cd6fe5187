/** What the lock and the atomic replace are for (src/xete_mcp/spendguard.py): however the small steps of
    `LockMachine` interleave, the ledger is that of one serial run. */
module LockProtocol {
  import opened Wrappers
  import opened SpendLedger
  import opened SpendRuns
  import opened LockMachine

  /** Linearizability. After any interleaving of steps and crashes there is one serial order, the log:
      the ledger on disk is the result of running it; every entry of it is one operation that some
      process began, after its beginning, and no operation occurs twice; every answered operation has a
      place of its own in it and was given the answer the serial run gives there; and an operation that
      began after another was answered comes after it. */
  lemma Linearizable(limits: Limits, actions: seq<Action>)
    ensures var s := Exec(limits, actions);
            && s.file == Run(limits, s.log).ledger
            && EachOnce(s)
            && (forall k :: 0 <= k < |s.finished| ==>
                  AnsweredSerially(limits, s, s.finished[k].id, s.finished[k].at, s.finished[k].reply))
            && (forall j, k :: 0 <= j < k < |s.finished| ==>
                  s.finished[j].id != s.finished[k].id && s.finished[j].at != s.finished[k].at)
            && (forall k, m :: 0 <= k < |s.finished| && 0 <= m < |s.log| && k < s.starts[s.ids[m]].answered
                               ==> s.finished[k].at < m)
  {
    ExecKeepsInv(limits, actions);
    var s := Exec(limits, actions);
    hide Run, ReplyTo, Exec;
    forall j, k | 0 <= j < k < |s.finished| ensures s.finished[j].at != s.finished[k].at {
      assert AnsweredSerially(limits, s, s.finished[j].id, s.finished[j].at, s.finished[j].reply);
      assert AnsweredSerially(limits, s, s.finished[k].id, s.finished[k].at, s.finished[k].reply);
    }
  }

  lemma MutualExclusion(limits: Limits, actions: seq<Action>, p: Pid, q: Pid)
    requires InCriticalSection(PhaseOf(Exec(limits, actions), p))
    requires InCriticalSection(PhaseOf(Exec(limits, actions), q))
    ensures p == q
  {
    ExecKeepsInv(limits, actions);
    assert PhaseOk(limits, Exec(limits, actions), p) && PhaseOk(limits, Exec(limits, actions), q);
  }

  /** Real time. An operation that is begun now takes effect, if it ever does, after everything that has
      taken effect by now, and so after everything that has been answered by now. */
  lemma RealTimeOrder(limits: Limits, before: seq<Action>, p: Pid, op: Event, after: seq<Action>)
    requires PhaseOf(Exec(limits, before), p).Idle? && op.path != COMPACTED
    ensures var s, s' := Exec(limits, before), Exec(limits, before + [Begin(p, op)] + after);
            && s.log <= s'.log && s.finished <= s'.finished && |s'.ids| == |s'.log|
            && |s.starts| < |s'.starts| && s'.starts[|s.starts|] == Start(p, op, |s.log|, |s.finished|)
            && (forall m :: 0 <= m < |s'.log| && s'.ids[m] == |s.starts| ==> |s.log| <= m && SameOp(s'.log[m], op))
            && (forall k :: 0 <= k < |s.finished| ==> s.finished[k].at < |s.log|)
  {
    var s := Exec(limits, before);
    var s1 := Do(limits, s, Begin(p, op));
    assert s1.starts[|s.starts|] == Start(p, op, |s.log|, |s.finished|);
    hide Exec, Do, DoAll, SystemInv, Run, ReplyTo, PhaseOk, LooksOk;
    AtMoment(limits, before, Begin(p, op), after);
    StepGrows(limits, s, Begin(p, op));
    HistoryGrows(limits, s1, after);
    AnsweredIsLogged(limits, before);
    LogIsBegun(limits, before + [Begin(p, op)] + after);
  }

  lemma AnsweredIsLogged(limits: Limits, actions: seq<Action>)
    ensures var s := Exec(limits, actions); forall k :: 0 <= k < |s.finished| ==> s.finished[k].at < |s.log|
  {
    ExecKeepsInv(limits, actions);
    hide Run, ReplyTo, PhaseOk, LooksOk, Exec;
    var s := Exec(limits, actions);
    forall k | 0 <= k < |s.finished| ensures s.finished[k].at < |s.log| {
      assert AnsweredSerially(limits, s, s.finished[k].id, s.finished[k].at, s.finished[k].reply);
    }
  }

  lemma LogIsBegun(limits: Limits, actions: seq<Action>)
    ensures EachOnce(Exec(limits, actions))
  {
    ExecKeepsInv(limits, actions);
    hide Run, ReplyTo, PhaseOk, LooksOk, Exec;
  }

  /** A reader that takes no lock sees the ledger as it is: the serial run of everything that has taken
      effect by the time it looks, which holds everything answered by then and stays a prefix of the
      serial order for good. */
  lemma ReadersSeeCommitted(limits: Limits, before: seq<Action>, after: seq<Action>)
    ensures var s, s' := Exec(limits, before), Exec(limits, before + [Observe] + after);
            && s.log <= s'.log && |s.looks| < |s'.looks|
            && s'.looks[|s.looks|].ledger == Run(limits, s.log).ledger
            && s'.looks[|s.looks|].logged == |s.log| && s'.looks[|s.looks|].answered == |s.finished|
            && (forall k :: 0 <= k < |s.finished| ==> s.finished[k].at < |s.log|)
  {
    ExecKeepsInv(limits, before);
    var s := Exec(limits, before);
    var s1 := Do(limits, s, Observe);
    assert s1.looks[|s.looks|] == Look(s.file, |s.log|, |s.finished|);
    hide Exec, Do, DoAll, Run, EachOnce, Answers, RealTime, PhaseOk, LooksOk;
    AtMoment(limits, before, Observe, after);
    StepGrows(limits, s, Observe);
    HistoryGrows(limits, s1, after);
    AnsweredIsLogged(limits, before);
  }

  /** Later looks never see less: what the earlier one saw is the run of a prefix of what the later saw. */
  lemma LooksNeverGoBack(limits: Limits, actions: seq<Action>, i: nat, j: nat)
    requires i <= j < |Exec(limits, actions).looks|
    ensures var s := Exec(limits, actions);
            && s.looks[i].logged <= s.looks[j].logged <= |s.log|
            && s.looks[i].ledger == Run(limits, s.log[..s.looks[i].logged]).ledger
            && s.looks[j].ledger == Run(limits, s.log[..s.looks[j].logged]).ledger
  {
    ExecKeepsInv(limits, actions);
    hide Exec, Run, EachOnce, Answers, RealTime, PhaseOk;
    var s := Exec(limits, actions);
    assert LookOk(limits, s, s.looks[i]) && LookOk(limits, s, s.looks[j]);
  }

  /** One step, a crash included, leaves the old ledger or puts the whole new one in its place;
      only the rename does the latter, and the new ledger is the serial successor of the old. */
  lemma StepIsAtomic(limits: Limits, actions: seq<Action>, a: Action)
    ensures var s, s' := Exec(limits, actions), Exec(limits, actions + [a]);
            if a.Replace? && s' != s
            then |s'.log| == |s.log| + 1 && s'.log[..|s.log|] == s.log
                 && s'.file == Next(limits, s.file, s'.log[|s.log|])
            else s'.file == s.file
  {
    assert (actions + [a])[..|actions|] == actions;
    ExecKeepsInv(limits, actions);
    var s := Exec(limits, actions);
    hide Run, ReplyTo, Next, Changes, EachOnce, Answers, RealTime;
    if a.Replace? {
      assert PhaseOk(limits, s, a.p);
    }
  }

  /** The cap under concurrency: at every moment of every interleaving the ledger holds at most the
      window cap, and no interval of W - 2 seconds carries more than it. */
  lemma CapUnderConcurrency(limits: Limits, actions: seq<Action>, w: Interval)
    requires w.to - w.from <= limits.windowSeconds as real - CLOCK_SLACK
    ensures var s := Exec(limits, actions);
            && Sum(s.file.entries) <= limits.windowLamports
            && SumIn(Run(limits, s.log).active, w) <= limits.windowLamports
  {
    hide Sum, SumIn, Run, Exec, Inv;
    ExecKeepsInv(limits, actions);
    var s := Exec(limits, actions);
    RunKeepsInv(limits, s.log);
    InvCapsSum(limits, Run(limits, s.log));
    WindowCapAnyClock(limits, s.log, w);
  }

  lemma InvCapsSum(limits: Limits, s: State)
    requires Inv(limits, s)
    ensures Sum(s.ledger.entries) <= limits.windowLamports
  {
  }
}
