/** Nobody waits for the ledger's lock for good (src/xete_mcp/spendguard.py, the lock): the holder's own
    steps, or its death, set it free, and whoever waits can then finish. */
module LockProgress {
  import opened Wrappers
  import opened SpendLedger
  import opened SpendRuns
  import opened LockMachine

  /** Everything a process does from asking for the lock to giving it back; what no longer applies does
      nothing. */
  function Turn(p: Pid): seq<Action> {
    TurnWith(p, true)
  }

  /** The same, where the write may fail at the last step. */
  function TurnWith(p: Pid, saved: bool): seq<Action> {
    [Acquire(p), Load(p), Decide(p), Flush(p), if saved then Replace(p) else WriteFails(p), Unlock(p)]
  }

  lemma TurnSteps(limits: Limits, s: System, p: Pid, saved: bool)
    ensures DoAll(limits, s, TurnWith(p, saved))
         == Do(limits, Do(limits, Do(limits, Do(limits, Do(limits, Do(limits, s, Acquire(p)), Load(p)), Decide(p)), Flush(p)),
                         if saved then Replace(p) else WriteFails(p)), Unlock(p))
  {
    hide Do;
    var t := TurnWith(p, saved);
    assert t[..5][..4] == t[..4] && t[..4][..3] == t[..3] && t[..3][..2] == t[..2] && t[..2][..1] == t[..1] && t[..1][..0] == [];
    assert DoAll(limits, s, t[..1]) == Do(limits, s, Acquire(p));
    assert DoAll(limits, s, t[..2]) == Do(limits, DoAll(limits, s, t[..1]), Load(p));
    assert DoAll(limits, s, t[..3]) == Do(limits, DoAll(limits, s, t[..2]), Decide(p));
    assert DoAll(limits, s, t[..4]) == Do(limits, DoAll(limits, s, t[..3]), Flush(p));
    assert DoAll(limits, s, t[..5]) == Do(limits, DoAll(limits, s, t[..4]), if saved then Replace(p) else WriteFails(p));
  }

  /** How many of its steps the holder of the lock still has before it can unlock. */
  function StepsLeft(ph: Phase): nat {
    if ph.Holding? then 4 else if ph.Loaded? then 3 else if ph.Writing? then 2 else if ph.Flushed? then 1 else 0
  }

  /** Since `s0` only `p` has moved; it holds the lock for operation `id` and has not answered yet. */
  ghost predicate OnlyMoved(s0: System, s: System, p: Pid, id: nat) {
    && InCriticalSection(PhaseOf(s, p)) && PhaseOf(s, p).id == id && s.lock == Some(p)
    && (PhaseOf(s, p).Flushed? ==> TempOf(s, p).Complete?)
    && s.finished == s0.finished
    && forall q :: q != p ==> PhaseOf(s, q) == PhaseOf(s0, q)
  }

  lemma HolderSteps(limits: Limits, s0: System, s: System, p: Pid, id: nat, a: Action)
    requires OnlyMoved(s0, s, p, id)
    requires a == Load(p) || a == Decide(p) || a == Flush(p) || a == Replace(p)
    ensures var s' := Do(limits, s, a);
            && OnlyMoved(s0, s', p, id) && StepsLeft(PhaseOf(s', p)) <= StepsLeft(PhaseOf(s, p))
            && (a.Load? ==> StepsLeft(PhaseOf(s', p)) <= 3)
            && (a.Decide? && StepsLeft(PhaseOf(s, p)) <= 3 ==> StepsLeft(PhaseOf(s', p)) <= 2)
            && (a.Flush? && StepsLeft(PhaseOf(s, p)) <= 2 ==> StepsLeft(PhaseOf(s', p)) <= 1)
            && (a.Replace? && StepsLeft(PhaseOf(s, p)) <= 1 ==> StepsLeft(PhaseOf(s', p)) == 0)
  {
    hide ReplyTo, Changes, Next;
  }

  lemma HolderStarts(limits: Limits, s: System, p: Pid)
    requires SystemInv(limits, s)
    requires InCriticalSection(PhaseOf(s, p)) || (PhaseOf(s, p).Waiting? && s.lock.None?)
    ensures OnlyMoved(s, Do(limits, s, Acquire(p)), p, PhaseOf(s, p).id)
  {
    assert PhaseOk(limits, s, p);
    hide ReplyTo, Changes, Next, EachOnce, Answers, RealTime, Run;
  }

  /** The lock holder, or a process that waits while nobody holds the lock, finishes by its own steps
      alone: its operation is answered, the lock is free, and nobody else has moved. */
  lemma TurnFinishes(limits: Limits, s: System, p: Pid)
    requires SystemInv(limits, s)
    requires InCriticalSection(PhaseOf(s, p)) || (PhaseOf(s, p).Waiting? && s.lock.None?)
    ensures var s' := DoAll(limits, s, Turn(p));
            && s'.lock.None? && |s'.finished| == |s.finished| + 1 && s'.finished[|s.finished|].id == PhaseOf(s, p).id
            && forall q :: q != p ==> PhaseOf(s', q) == PhaseOf(s, q)
  {
    var id := PhaseOf(s, p).id;
    TurnSteps(limits, s, p, true);
    HolderStarts(limits, s, p);
    var s1 := Do(limits, s, Acquire(p));
    var s2 := Do(limits, s1, Load(p));
    var s3 := Do(limits, s2, Decide(p));
    var s4 := Do(limits, s3, Flush(p));
    var s5 := Do(limits, s4, Replace(p));
    hide Do, DoAll, SystemInv, OnlyMoved, StepsLeft, Turn;
    HolderSteps(limits, s, s1, p, id, Load(p));
    HolderSteps(limits, s, s2, p, id, Decide(p));
    HolderSteps(limits, s, s3, p, id, Flush(p));
    HolderSteps(limits, s, s4, p, id, Replace(p));
    HolderUnlocks(limits, s, s5, p, id);
  }

  /** A process that finds the lock free and is left alone carries its operation out as the serial run
      does: one entry in the log, the answer and the ledger of the serial step, whether its write succeeds
      or fails. */
  lemma AloneIsSerial(limits: Limits, actions: seq<Action>, p: Pid, op: Event, saved: bool)
    requires Exec(limits, actions).lock.None? && PhaseOf(Exec(limits, actions), p).Idle? && op.path != COMPACTED
    ensures var s := Exec(limits, actions);
            var s' := Exec(limits, actions + ([Begin(p, op)] + TurnWith(p, saved)));
            && s'.lock.None? && s'.file == Next(limits, s.file, Saved(op, saved))
            && |s'.log| == |s.log| + 1 && s'.log[..|s.log|] == s.log && SameOp(s'.log[|s.log|], op)
            && s'.finished == s.finished + [Finish(|s.starts|, |s.log|, TurnReply(limits, s.file, op, saved))]
  {
    hide Do, Changes, Next, ReplyTo, TurnReply, TurnWith, Exec;
    ExecIs(limits, actions, [Begin(p, op)] + TurnWith(p, saved));
    var s := Exec(limits, actions);
    var s0 := Do(limits, s, Begin(p, op));
    BeginIs(limits, s, p, op);
    DoAllAppend(limits, s, [Begin(p, op)], TurnWith(p, saved));
    TurnSteps(limits, s0, p, saved);
    TurnAlone(limits, s0, p, op, |s.starts|, saved);
  }

  lemma ExecIs(limits: Limits, actions: seq<Action>, more: seq<Action>)
    ensures Exec(limits, actions + more) == DoAll(limits, Exec(limits, actions), more)
  {
    DoAllAppend(limits, BOOT, actions, more);
  }

  lemma BeginIs(limits: Limits, s: System, p: Pid, op: Event)
    requires PhaseOf(s, p).Idle? && op.path != COMPACTED
    ensures var s0 := Do(limits, s, Begin(p, op));
            && DoAll(limits, s, [Begin(p, op)]) == s0
            && PhaseOf(s0, p) == Waiting(op, |s.starts|) && s0.lock == s.lock && s0.file == s.file && s0.log == s.log
            && s0.finished == s.finished
  {
    assert [Begin(p, op)][..0] == [];
  }

  /** What a turn answers: an operation that changes nothing writes nothing, so no write can fail. */
  function TurnReply(limits: Limits, l: Ledger, op: Event, saved: bool): Reply {
    if Changes(limits, l, op) then ReplyTo(limits, l, Saved(op, saved))
    else if op.Spend? then Refused
    else Returned(false)
  }

  lemma TurnAlone(limits: Limits, s: System, p: Pid, op: Event, id: nat, saved: bool)
    requires s.lock.None? && PhaseOf(s, p) == Waiting(op, id)
    ensures var last := if saved then Replace(p) else WriteFails(p);
            var s' := Do(limits, Do(limits, Do(limits, Do(limits, Do(limits, Do(limits, s, Acquire(p)), Load(p)), Decide(p)),
                                               Flush(p)), last), Unlock(p));
            && s'.lock.None? && s'.file == Next(limits, s.file, Saved(op, saved))
            && |s'.log| == |s.log| + 1 && s'.log[..|s.log|] == s.log && SameOp(s'.log[|s.log|], op)
            && s'.finished == s.finished + [Finish(id, |s.log|, TurnReply(limits, s.file, op, saved))]
  {
    hide Do, Changes, Next, ReplyTo, TurnReply;
    var s3 := Do(limits, Do(limits, Do(limits, s, Acquire(p)), Load(p)), Decide(p));
    DecidesAlone(limits, s, p, op, id);
    if Changes(limits, s.file, op) {
      WritesAlone(limits, s3, p, op, id, saved);
    } else {
      NothingChanges(limits, s.file, op, saved);
      AnswersAlone(limits, s3, p, saved);
    }
  }

  /** Up to the decision. */
  lemma DecidesAlone(limits: Limits, s: System, p: Pid, op: Event, id: nat)
    requires s.lock.None? && PhaseOf(s, p) == Waiting(op, id)
    ensures var s3 := Do(limits, Do(limits, Do(limits, s, Acquire(p)), Load(p)), Decide(p));
            && s3.file == s.file && s3.finished == s.finished
            && (Changes(limits, s.file, op) ==>
                  PhaseOf(s3, p) == Writing(op, id, Next(limits, s.file, Saved(op, true))) && s3.log == s.log)
            && (!Changes(limits, s.file, op) ==>
                  PhaseOf(s3, p) == Closing(op, id, |s.log|, ReplyTo(limits, s.file, op)) && s3.log == s.log + [op])
  {
    hide Changes, Next, ReplyTo;
  }

  /** From a decision to write. */
  lemma WritesAlone(limits: Limits, s: System, p: Pid, op: Event, id: nat, saved: bool)
    requires PhaseOf(s, p) == Writing(op, id, Next(limits, s.file, Saved(op, true))) && Changes(limits, s.file, op)
    ensures var last := if saved then Replace(p) else WriteFails(p);
            var s' := Do(limits, Do(limits, Do(limits, s, Flush(p)), last), Unlock(p));
            && s'.lock.None? && s'.file == Next(limits, s.file, Saved(op, saved)) && s'.log == s.log + [Saved(op, saved)]
            && s'.finished == s.finished + [Finish(id, |s.log|, TurnReply(limits, s.file, op, saved))]
  {
    UnsavedNext(limits, s.file, op);
    hide Changes, Next, ReplyTo;
    var s4 := Do(limits, s, Flush(p));
    assert PhaseOf(s4, p) == Flushed(op, id) && TempOf(s4, p) == Complete(Next(limits, s.file, Saved(op, true)));
  }

  /** From a decision that leaves nothing to write. */
  lemma AnswersAlone(limits: Limits, s: System, p: Pid, saved: bool)
    requires PhaseOf(s, p).Closing?
    ensures var last, ph := if saved then Replace(p) else WriteFails(p), PhaseOf(s, p);
            var s' := Do(limits, Do(limits, Do(limits, s, Flush(p)), last), Unlock(p));
            && s'.lock.None? && s'.file == s.file && s'.log == s.log
            && s'.finished == s.finished + [Finish(ph.id, ph.at, ph.reply)]
  {
  }

  lemma NothingChanges(limits: Limits, l: Ledger, op: Event, saved: bool)
    requires !Changes(limits, l, op)
    ensures Next(limits, l, Saved(op, saved)) == l && ReplyTo(limits, l, op) == TurnReply(limits, l, op, saved)
  {
  }

  lemma HolderUnlocks(limits: Limits, s0: System, s: System, p: Pid, id: nat)
    requires OnlyMoved(s0, s, p, id) && StepsLeft(PhaseOf(s, p)) == 0
    ensures var s' := Do(limits, s, Unlock(p));
            && s'.lock.None? && |s'.finished| == |s0.finished| + 1 && s'.finished[|s0.finished|].id == id
            && forall q :: q != p ==> PhaseOf(s', q) == PhaseOf(s0, q)
  {
  }

  lemma CrashFrees(limits: Limits, s: System, p: Pid)
    requires s.lock == Some(p)
    ensures var s' := DoAll(limits, s, [Crash(p)]);
            s'.lock.None? && forall q :: q != p ==> PhaseOf(s', q) == PhaseOf(s, q)
  {
    assert [Crash(p)][..0] == [];
  }

  /** Nobody is kept out for good: from every reachable state, whatever the holder of the lock was doing,
      letting it run on or letting it crash is enough for any waiting process to finish and be answered. */
  lemma WaitingCanFinish(limits: Limits, actions: seq<Action>, p: Pid, crashes: bool)
    requires PhaseOf(Exec(limits, actions), p).Waiting?
    ensures var s := Exec(limits, actions);
            var first := if s.lock.None? then [] else if crashes then [Crash(s.lock.value)] else Turn(s.lock.value);
            var s' := Exec(limits, actions + (first + Turn(p)));
            && s'.lock.None?
            && exists k :: 0 <= k < |s'.finished| && s'.finished[k].id == PhaseOf(s, p).id
  {
    hide SystemInv, Do, Turn;
    ExecKeepsInv(limits, actions);
    var s := Exec(limits, actions);
    var first := if s.lock.None? then [] else if crashes then [Crash(s.lock.value)] else Turn(s.lock.value);
    DoAllAppend(limits, BOOT, actions, first + Turn(p));
    DoAllAppend(limits, s, first, Turn(p));
    DoAllKeepsInv(limits, s, first);
    if s.lock.Some? {
      HolderIsInside(limits, s, s.lock.value);
      if crashes {
        CrashFrees(limits, s, s.lock.value);
      } else {
        TurnFinishes(limits, s, s.lock.value);
      }
    }
    TurnFinishes(limits, DoAll(limits, s, first), p);
  }

  lemma HolderIsInside(limits: Limits, s: System, p: Pid)
    requires SystemInv(limits, s) && s.lock == Some(p)
    ensures InCriticalSection(PhaseOf(s, p))
  {
    assert PhaseOk(limits, s, p);
  }
}
