/** Many processes using the ledger at once (src/xete_mcp/spendguard.py, the lock, the read and
    the atomic replace; src/xete_mcp/payment.py, the release). Each operation is a chain of small
    steps under an exclusive lock: read, decide, write a temporary file, rename it, unlock. Steps
    of different processes interleave freely, any process may crash between any two, and readers
    take no lock.

    `starts` lists the operations in the order they were begun, and an operation is known by its
    place there. `log` lists the operations in the order they took effect, `ids` says which started
    operation each entry of the log is, `finished` lists the answers given and `looks` what readers saw,
    each in order. */
module LockMachine {
  import opened Wrappers
  import opened SpendLedger
  import opened SpendRuns

  type Pid = nat

  datatype Reply = Approved(charged: nat, windowSpent: nat) | Refused | Unwritable | Returned(found: bool)

  datatype Phase =
    | Idle
    | Waiting(op: Event, id: nat)
    | Holding(op: Event, id: nat)
    | Loaded(op: Event, id: nat, snapshot: Ledger)
    | Writing(op: Event, id: nat, next: Ledger)
    | Flushed(op: Event, id: nat)
    | Closing(op: Event, id: nat, at: nat, reply: Reply)

  /** The temporary file of one process. */
  datatype Temp = Absent | Partial | Complete(content: Ledger)

  /** A begun operation: whose it is, and how much had taken effect and been answered by then. */
  datatype Start = Start(p: Pid, op: Event, logged: nat, answered: nat)

  /** An answered operation and its place in the log. */
  datatype Finish = Finish(id: nat, at: nat, reply: Reply)

  /** What a reader saw, and how much had taken effect and been answered by then. */
  datatype Look = Look(ledger: Ledger, logged: nat, answered: nat)

  datatype System = System(
    file: Ledger,
    lock: Option<Pid>,
    phases: map<Pid, Phase>,
    temps: map<Pid, Temp>,
    starts: seq<Start>,
    log: seq<Event>,
    ids: seq<nat>,
    finished: seq<Finish>,
    looks: seq<Look>)

  const BOOT := System(EMPTY, None, map[], map[], [], [], [], [], [])

  function PhaseOf(s: System, p: Pid): Phase {
    if p in s.phases then s.phases[p] else Idle
  }

  function TempOf(s: System, p: Pid): Temp {
    if p in s.temps then s.temps[p] else Absent
  }

  datatype Action =
    | Begin(p: Pid, op: Event)
    | Acquire(p: Pid)
    | Load(p: Pid)
    | Decide(p: Pid)
    | Flush(p: Pid)
    | Replace(p: Pid)
    | WriteFails(p: Pid)
    | Unlock(p: Pid)
    | Crash(p: Pid)
    | Observe

  function Saved(op: Event, saved: bool): Event {
    match op
    case Spend(quoted, clock, path, detail, _) => Spend(quoted, clock, path, detail, saved)
    case GiveBack(path, detail, charged, _) => GiveBack(path, detail, charged, saved)
  }

  /** The same operation, whether or not its write succeeded. */
  predicate SameOp(a: Event, b: Event) {
    Saved(a, true) == Saved(b, true)
  }

  /** Does the operation change this ledger, supposing it can be written? */
  predicate Changes(limits: Limits, l: Ledger, op: Event) {
    match op
    case Spend(_, _, _, _, _) => Approves(limits, l, Saved(op, true))
    case GiveBack(path, detail, charged, _) => FindFromEnd(l.entries, path, detail, charged).Some?
  }

  function Next(limits: Limits, l: Ledger, op: Event): Ledger {
    Step(limits, State(l, []), op).ledger
  }

  /** What the serial operation answers when it meets this ledger. */
  function ReplyTo(limits: Limits, l: Ledger, op: Event): Reply {
    match op
    case Spend(quoted, clock, _, _, saved) =>
      if !Changes(limits, l, op) then Refused
      else if !saved then Unwritable
      else
        Approved(Charge(limits, quoted).value,
                 Sum(Live(l.entries, EffectiveNow(l.lastTs, clock), limits.windowSeconds)) + Charge(limits, quoted).value)
    case GiveBack(_, _, _, saved) => Returned(saved && Changes(limits, l, op))
  }

  predicate InCriticalSection(ph: Phase) {
    ph.Holding? || ph.Loaded? || ph.Writing? || ph.Flushed? || ph.Closing?
  }

  /** Begun, and not yet taken effect. */
  predicate Pending(ph: Phase) {
    ph.Waiting? || ph.Holding? || ph.Loaded? || ph.Writing? || ph.Flushed?
  }

  function Put(s: System, p: Pid, ph: Phase): System {
    s.(phases := s.phases[p := ph])
  }

  /** The operation takes effect now. */
  function Commit(limits: Limits, s: System, p: Pid, op: Event, id: nat): System {
    Put(s, p, Closing(op, id, |s.log|, ReplyTo(limits, s.file, op))).(log := s.log + [op], ids := s.ids + [id])
  }

  function Do(limits: Limits, s: System, a: Action): System {
    match a
    case Begin(p, op) =>
      if PhaseOf(s, p).Idle? && op.path != COMPACTED
      then Put(s, p, Waiting(op, |s.starts|)).(starts := s.starts + [Start(p, op, |s.log|, |s.finished|)]) else s
    case Acquire(p) =>
      var ph := PhaseOf(s, p);
      if ph.Waiting? && s.lock.None? then Put(s, p, Holding(ph.op, ph.id)).(lock := Some(p)) else s
    case Load(p) =>
      var ph := PhaseOf(s, p);
      if ph.Holding? then Put(s, p, Loaded(ph.op, ph.id, s.file)) else s
    case Decide(p) =>
      var ph := PhaseOf(s, p);
      if !ph.Loaded? then s
      else if Changes(limits, ph.snapshot, ph.op) then
        Put(s, p, Writing(ph.op, ph.id, Next(limits, ph.snapshot, Saved(ph.op, true))))
        .(temps := s.temps[p := Partial])
      else Commit(limits, s, p, ph.op, ph.id)
    case Flush(p) =>
      var ph := PhaseOf(s, p);
      if ph.Writing? then Put(s, p, Flushed(ph.op, ph.id)).(temps := s.temps[p := Complete(ph.next)]) else s
    case Replace(p) =>
      var ph := PhaseOf(s, p);
      if ph.Flushed? && TempOf(s, p).Complete? then
        Commit(limits, s, p, Saved(ph.op, true), ph.id)
        .(file := TempOf(s, p).content, temps := s.temps[p := Absent])
      else s
    case WriteFails(p) =>
      var ph := PhaseOf(s, p);
      if ph.Writing? || ph.Flushed? then
        Commit(limits, s, p, Saved(ph.op, false), ph.id).(temps := s.temps[p := Absent])
      else s
    case Unlock(p) =>
      var ph := PhaseOf(s, p);
      if ph.Closing? then
        Put(s, p, Idle).(lock := None, finished := s.finished + [Finish(ph.id, ph.at, ph.reply)])
      else s
    case Crash(p) =>
      Put(s, p, Idle).(lock := if s.lock == Some(p) then None else s.lock)
    case Observe => s.(looks := s.looks + [Look(s.file, |s.log|, |s.finished|)])
  }

  function DoAll(limits: Limits, s: System, actions: seq<Action>): System {
    if actions == [] then s else Do(limits, DoAll(limits, s, actions[..|actions| - 1]), actions[|actions| - 1])
  }

  function Exec(limits: Limits, actions: seq<Action>): System {
    DoAll(limits, BOOT, actions)
  }

  lemma {:induction false} DoAllAppend(limits: Limits, s: System, a: seq<Action>, b: seq<Action>)
    ensures DoAll(limits, s, a + b) == DoAll(limits, DoAll(limits, s, a), b)
  {
    hide Do;
    if b == [] {
      assert a + b == a;
    } else {
      assert (a + b)[..|a + b| - 1] == a + b[..|b| - 1];
      DoAllAppend(limits, s, a, b[..|b| - 1]);
    }
  }

  lemma StepGrows(limits: Limits, s: System, a: Action)
    ensures var s' := Do(limits, s, a);
            s.log <= s'.log && s.ids <= s'.ids && s.starts <= s'.starts && s.finished <= s'.finished && s.looks <= s'.looks
  {
    hide Changes, Next, ReplyTo;
  }

  /** The history of a system only grows. */
  lemma {:induction false} HistoryGrows(limits: Limits, s: System, actions: seq<Action>)
    ensures var s' := DoAll(limits, s, actions);
            s.log <= s'.log && s.ids <= s'.ids && s.starts <= s'.starts && s.finished <= s'.finished && s.looks <= s'.looks
  {
    hide Do;
    if actions != [] {
      HistoryGrows(limits, s, actions[..|actions| - 1]);
      StepGrows(limits, DoAll(limits, s, actions[..|actions| - 1]), actions[|actions| - 1]);
    }
  }

  /** A run, the step after it, and the rest. */
  lemma AtMoment(limits: Limits, before: seq<Action>, a: Action, after: seq<Action>)
    ensures var s, s' := Exec(limits, before), Exec(limits, before + [a] + after);
            s' == DoAll(limits, Do(limits, s, a), after)
  {
    hide Do;
    DoAllAppend(limits, BOOT, before + [a], after);
    assert (before + [a])[..|before|] == before;
  }

  // ---- the invariant ----

  /** A place in the log holds this started operation, after everything that had taken effect when it was
      begun, and this is what the serial run answers there. */
  ghost predicate AnsweredSerially(limits: Limits, s: System, id: nat, at: nat, reply: Reply) {
    && id < |s.starts| && at < |s.log| && at < |s.ids| && s.ids[at] == id
    && reply == ReplyTo(limits, Run(limits, s.log[..at]).ledger, s.log[at])
  }

  /** Every entry of the log is one begun operation, and none took effect twice. */
  ghost predicate EachOnce(s: System) {
    && |s.ids| == |s.log|
    && (forall k :: 0 <= k < |s.ids| ==>
          && s.ids[k] < |s.starts| && SameOp(s.log[k], s.starts[s.ids[k]].op) && s.starts[s.ids[k]].logged <= k)
    && (forall j, k :: 0 <= j < k < |s.ids| ==> s.ids[j] != s.ids[k])
  }

  /** Every answer belongs to one operation, is given once, and is the serial one. */
  ghost predicate Answers(limits: Limits, s: System) {
    && (forall k :: 0 <= k < |s.finished| ==>
          AnsweredSerially(limits, s, s.finished[k].id, s.finished[k].at, s.finished[k].reply))
    && (forall j, k :: 0 <= j < k < |s.finished| ==> s.finished[j].id != s.finished[k].id)
  }

  /** What was answered before an operation began took effect before it. */
  ghost predicate RealTime(s: System) {
    forall b :: 0 <= b < |s.starts| ==>
      && s.starts[b].logged <= |s.log| && s.starts[b].answered <= |s.finished|
      && forall k :: 0 <= k < s.starts[b].answered ==> s.finished[k].at < s.starts[b].logged
  }

  ghost predicate PhaseOk(limits: Limits, s: System, p: Pid) {
    var ph := PhaseOf(s, p);
    && (InCriticalSection(ph) <==> s.lock == Some(p))
    && (!ph.Idle? ==> ph.op.path != COMPACTED && ph.id < |s.starts|
                      && s.starts[ph.id].p == p && SameOp(ph.op, s.starts[ph.id].op))
    && (Pending(ph) ==> ph.id !in s.ids)
    && (ph.Loaded? ==> ph.snapshot == s.file)
    && (ph.Writing? ==> Changes(limits, s.file, ph.op) && ph.next == Next(limits, s.file, Saved(ph.op, true)))
    && (ph.Flushed? ==> Changes(limits, s.file, ph.op)
                        && TempOf(s, p) == Complete(Next(limits, s.file, Saved(ph.op, true))))
    && (ph.Closing? ==> AnsweredSerially(limits, s, ph.id, ph.at, ph.reply)
                        && forall k :: 0 <= k < |s.finished| ==> s.finished[k].id != ph.id)
  }

  /** What a reader saw is the serial run of the log as it stood, with everything answered by then in it. */
  ghost predicate LookOk(limits: Limits, s: System, look: Look) {
    && look.logged <= |s.log| && look.answered <= |s.finished|
    && look.ledger == Run(limits, s.log[..look.logged]).ledger
    && forall k :: 0 <= k < look.answered ==> s.finished[k].at < look.logged
  }

  ghost predicate LooksOk(limits: Limits, s: System) {
    && (forall i :: 0 <= i < |s.looks| ==> LookOk(limits, s, s.looks[i]))
    && (forall i, j :: 0 <= i < j < |s.looks| ==>
          s.looks[i].logged <= s.looks[j].logged && s.looks[i].answered <= s.looks[j].answered)
  }

  ghost predicate SystemInv(limits: Limits, s: System) {
    && s.file == Run(limits, s.log).ledger
    && Proper(s.log)
    && EachOnce(s) && Answers(limits, s) && RealTime(s)
    && (forall p: Pid :: PhaseOk(limits, s, p))
    && LooksOk(limits, s)
  }

  lemma NextIgnoresHistory(limits: Limits, s: State, op: Event)
    ensures Step(limits, s, op).ledger == Next(limits, s.ledger, op)
  {
  }

  /** An answer stays right as the log and the list of operations grow. */
  lemma AnswerSurvives(limits: Limits, s: System, s': System, id: nat, at: nat, reply: Reply)
    requires AnsweredSerially(limits, s, id, at, reply)
    requires s.log <= s'.log && s.ids <= s'.ids && |s.starts| <= |s'.starts|
    ensures AnsweredSerially(limits, s', id, at, reply)
  {
    assert s'.log[..at] == s.log[..at];
  }

  /** What was seen stays right as the log and the answers grow. */
  lemma LooksSurvive(limits: Limits, s: System, s': System)
    requires LooksOk(limits, s) && s'.looks == s.looks && s.log <= s'.log && s.finished <= s'.finished
    ensures LooksOk(limits, s')
  {
    hide Run;
    forall i | 0 <= i < |s'.looks| ensures LookOk(limits, s', s'.looks[i]) {
      assert LookOk(limits, s, s.looks[i]);
      assert s'.log[..s.looks[i].logged] == s.log[..s.looks[i].logged];
    }
  }

  /** One more entry in the log. */
  ghost predicate Logs(s: System, s': System, op: Event, id: nat) {
    && id < |s.starts| && SameOp(op, s.starts[id].op) && id !in s.ids
    && s'.log == s.log + [op] && s'.ids == s.ids + [id] && s'.starts == s.starts && s'.finished == s.finished
  }

  /** Taking effect keeps the bookkeeping. */
  lemma CommitKeepsOnce(s: System, s': System, op: Event, id: nat)
    requires EachOnce(s) && RealTime(s) && Logs(s, s', op, id)
    ensures EachOnce(s') && RealTime(s')
  {
  }

  /** Whoever takes effect is answered as the serial run answers there. */
  lemma CommitAnswers(limits: Limits, s: System, s': System, op: Event, id: nat)
    requires |s.ids| == |s.log| && Logs(s, s', op, id)
    ensures AnsweredSerially(limits, s', id, |s.log|, ReplyTo(limits, Run(limits, s.log).ledger, op))
  {
    assert s'.log[..|s.log|] == s.log;
  }

  lemma CommitKeepsPhase(limits: Limits, s: System, s': System, p: Pid, q: Pid, op: Event, id: nat)
    requires PhaseOk(limits, s, p) && PhaseOk(limits, s, q) && p != q
    requires InCriticalSection(PhaseOf(s, p)) && PhaseOf(s, p).id == id && s.starts == s'.starts && s'.finished == s.finished
    requires s'.log == s.log + [op] && s'.ids == s.ids + [id] && s'.lock == s.lock
    requires PhaseOf(s', q) == PhaseOf(s, q)
    ensures PhaseOk(limits, s', q)
  {
    assert !InCriticalSection(PhaseOf(s, q));
    assert Pending(PhaseOf(s, q)) ==> PhaseOf(s, q).id != id;
    hide AnsweredSerially, Run, ReplyTo, Changes, Next;
  }

  /** What taking effect does to the system, when the file moves as the serial step does. */
  ghost predicate TakesEffect(limits: Limits, s: System, s': System, p: Pid, op: Event, id: nat) {
    && InCriticalSection(PhaseOf(s, p)) && Pending(PhaseOf(s, p))
    && PhaseOf(s, p).id == id && SameOp(op, PhaseOf(s, p).op)
    && s'.log == s.log + [op] && s'.ids == s.ids + [id] && s'.lock == s.lock && s'.looks == s.looks
    && s'.starts == s.starts && s'.finished == s.finished
    && s'.phases == s.phases[p := Closing(op, id, |s.log|, ReplyTo(limits, s.file, op))]
    && s'.file == Next(limits, s.file, op)
  }

  /** Taking effect keeps the ledger that of the serial run, and what readers saw right. */
  lemma CommitKeepsLedger(limits: Limits, s: System, s': System, p: Pid, op: Event, id: nat)
    requires SystemInv(limits, s) && TakesEffect(limits, s, s', p, op, id)
    ensures s'.file == Run(limits, s'.log).ledger && Proper(s'.log)
    ensures LooksOk(limits, s')
  {
    assert PhaseOk(limits, s, p);
    assert op.path == PhaseOf(s, p).op.path;
    assert s'.log[..|s'.log| - 1] == s.log;
    NextIgnoresHistory(limits, Run(limits, s.log), op);
    hide ReplyTo, Changes, Next, EachOnce, Answers, RealTime, LooksOk;
    LooksSurvive(limits, s, s');
  }

  lemma NotYetAnswered(limits: Limits, s: System, id: nat)
    requires Answers(limits, s) && id !in s.ids
    ensures forall k :: 0 <= k < |s.finished| ==> s.finished[k].id != id
  {
    forall k | 0 <= k < |s.finished| ensures s.finished[k].id != id {
      assert AnsweredSerially(limits, s, s.finished[k].id, s.finished[k].at, s.finished[k].reply);
    }
  }

  /** Taking effect keeps the answers and every process's phase in order. */
  lemma CommitKeepsPhases(limits: Limits, s: System, s': System, p: Pid, op: Event, id: nat)
    requires SystemInv(limits, s) && TakesEffect(limits, s, s', p, op, id)
    ensures EachOnce(s') && Answers(limits, s') && RealTime(s')
    ensures forall q: Pid :: PhaseOk(limits, s', q)
  {
    assert PhaseOk(limits, s, p);
    assert op.path == PhaseOf(s, p).op.path;
    CommitKeepsOnce(s, s', op, id);
    forall k | 0 <= k < |s'.finished|
      ensures AnsweredSerially(limits, s', s'.finished[k].id, s'.finished[k].at, s'.finished[k].reply)
    {
      AnswerSurvives(limits, s, s', s.finished[k].id, s.finished[k].at, s.finished[k].reply);
    }
    CommitAnswers(limits, s, s', op, id);
    NotYetAnswered(limits, s, id);
    hide AnsweredSerially, ReplyTo, Changes, Next, EachOnce, Answers, RealTime;
    forall q: Pid ensures PhaseOk(limits, s', q) {
      if q != p {
        CommitKeepsPhase(limits, s, s', p, q, op, id);
      }
    }
  }

  // ---- every step keeps the invariant ----

  lemma OthersKeepInv(limits: Limits, s: System, s': System, p: Pid)
    requires SystemInv(limits, s)
    requires s'.file == s.file && s'.log == s.log && s'.ids == s.ids && s'.looks == s.looks
    requires s'.starts == s.starts && s'.finished == s.finished
    requires forall q :: q != p ==> PhaseOf(s', q) == PhaseOf(s, q) && TempOf(s', q) == TempOf(s, q)
    requires forall q :: q != p ==> (s'.lock == Some(q) <==> s.lock == Some(q))
    requires PhaseOk(limits, s', p)
    ensures SystemInv(limits, s')
  {
    hide ReplyTo, Changes, Next, Run;
    forall q: Pid ensures PhaseOk(limits, s', q) {
      assert PhaseOk(limits, s, q);
    }
    SameAnswers(limits, s, s');
    LooksSurvive(limits, s, s');
  }

  lemma SameAnswers(limits: Limits, s: System, s': System)
    requires s'.log == s.log && s'.ids == s.ids && s'.starts == s.starts && s'.finished == s.finished
    requires EachOnce(s) && Answers(limits, s) && RealTime(s)
    ensures EachOnce(s') && Answers(limits, s') && RealTime(s')
  {
    forall k | 0 <= k < |s'.finished|
      ensures AnsweredSerially(limits, s', s'.finished[k].id, s'.finished[k].at, s'.finished[k].reply)
    {
      AnswerSurvives(limits, s, s', s.finished[k].id, s.finished[k].at, s.finished[k].reply);
    }
  }

  lemma BeginKeepsInv(limits: Limits, s: System, p: Pid, op: Event)
    requires SystemInv(limits, s)
    ensures SystemInv(limits, Do(limits, s, Begin(p, op)))
  {
    var s' := Do(limits, s, Begin(p, op));
    assert PhaseOk(limits, s, p);
    if s' != s {
      BeginKeepsAnswers(limits, s, s');
      LooksSurvive(limits, s, s');
      hide LooksOk, ReplyTo, Changes, Next, Run, AnsweredSerially;
      assert |s.starts| !in s.ids by {
        assert forall k :: 0 <= k < |s.ids| ==> s.ids[k] < |s.starts|;
      }
      forall q: Pid ensures PhaseOk(limits, s', q) {
        assert PhaseOk(limits, s, q);
        if PhaseOf(s, q).Closing? {
          AnswerSurvives(limits, s, s', PhaseOf(s, q).id, PhaseOf(s, q).at, PhaseOf(s, q).reply);
        }
      }
    }
  }

  lemma BeginKeepsAnswers(limits: Limits, s: System, s': System)
    requires EachOnce(s) && Answers(limits, s) && RealTime(s)
    requires s'.log == s.log && s'.ids == s.ids && s'.finished == s.finished
    requires |s'.starts| == |s.starts| + 1 && s'.starts[..|s.starts|] == s.starts
    requires s'.starts[|s.starts|].logged == |s.log| && s'.starts[|s.starts|].answered == |s.finished|
    ensures EachOnce(s') && Answers(limits, s') && RealTime(s')
  {
    assert forall b :: 0 <= b < |s.starts| ==> s'.starts[b] == s.starts[b];
    forall k | 0 <= k < |s'.finished|
      ensures AnsweredSerially(limits, s', s'.finished[k].id, s'.finished[k].at, s'.finished[k].reply)
    {
      AnswerSurvives(limits, s, s', s.finished[k].id, s.finished[k].at, s.finished[k].reply);
    }
  }

  lemma EntryStepKeepsInv(limits: Limits, s: System, a: Action)
    requires SystemInv(limits, s)
    requires a.Acquire? || a.Load? || a.Flush? || a.Crash?
    ensures SystemInv(limits, Do(limits, s, a))
  {
    assert PhaseOk(limits, s, a.p);
    if a.Acquire? {
      assert s.lock.Some? ==> PhaseOk(limits, s, s.lock.value);
    }
    hide ReplyTo, Changes, Next, Run, EachOnce, Answers, RealTime;
    OthersKeepInv(limits, s, Do(limits, s, a), a.p);
  }

  lemma UnlockKeepsInv(limits: Limits, s: System, p: Pid)
    requires SystemInv(limits, s)
    ensures SystemInv(limits, Do(limits, s, Unlock(p)))
  {
    hide ReplyTo, Changes, Next, Run, Proper, LooksOk, AnsweredSerially;
    var s' := Do(limits, s, Unlock(p));
    var ph := PhaseOf(s, p);
    assert PhaseOk(limits, s, p);
    if ph.Closing? {
      UnlockKeepsAnswers(limits, s, s', ph.id, ph.at, ph.reply);
      LooksSurvive(limits, s, s');
      hide EachOnce, Answers, RealTime;
      forall q: Pid ensures PhaseOk(limits, s', q) {
        assert PhaseOk(limits, s, q);
      }
    }
  }

  lemma UnlockKeepsAnswers(limits: Limits, s: System, s': System, id: nat, at: nat, reply: Reply)
    requires EachOnce(s) && Answers(limits, s) && RealTime(s) && AnsweredSerially(limits, s, id, at, reply)
    requires forall k :: 0 <= k < |s.finished| ==> s.finished[k].id != id
    requires s'.log == s.log && s'.ids == s.ids && s'.starts == s.starts && s'.finished == s.finished + [Finish(id, at, reply)]
    ensures EachOnce(s') && Answers(limits, s') && RealTime(s')
  {
    hide ReplyTo, Run;
    forall k | 0 <= k < |s'.finished|
      ensures AnsweredSerially(limits, s', s'.finished[k].id, s'.finished[k].at, s'.finished[k].reply)
    {
      var f := s'.finished[k];
      assert AnsweredSerially(limits, s, f.id, f.at, f.reply);
      AnswerSurvives(limits, s, s', f.id, f.at, f.reply);
    }
  }

  lemma DecideKeepsInv(limits: Limits, s: System, p: Pid)
    requires SystemInv(limits, s)
    ensures SystemInv(limits, Do(limits, s, Decide(p)))
  {
    assert PhaseOk(limits, s, p);
    var s' := Do(limits, s, Decide(p));
    var ph := PhaseOf(s, p);
    if ph.Loaded? && !Changes(limits, ph.snapshot, ph.op) {
      UnchangedNext(limits, s.file, ph.op);
      hide ReplyTo, Changes, Next, Run, EachOnce, Answers, RealTime;
      CommitKeepsLedger(limits, s, s', p, ph.op, ph.id);
      CommitKeepsPhases(limits, s, s', p, ph.op, ph.id);
    } else {
      hide ReplyTo, Changes, Next, Run, EachOnce, Answers, RealTime;
      OthersKeepInv(limits, s, s', p);
    }
  }

  lemma UnchangedNext(limits: Limits, l: Ledger, op: Event)
    requires !Changes(limits, l, op)
    ensures Next(limits, l, op) == l
  {
  }

  lemma UnsavedNext(limits: Limits, l: Ledger, op: Event)
    ensures Next(limits, l, Saved(op, false)) == l
  {
  }

  lemma WriteStepKeepsInv(limits: Limits, s: System, a: Action)
    requires SystemInv(limits, s)
    requires a.Replace? || a.WriteFails?
    ensures SystemInv(limits, Do(limits, s, a))
  {
    assert PhaseOk(limits, s, a.p);
    var s' := Do(limits, s, a);
    var ph := PhaseOf(s, a.p);
    if ph.Writing? || ph.Flushed? {
      UnsavedNext(limits, s.file, ph.op);
    }
    hide ReplyTo, Changes, Next, Run, EachOnce, Answers, RealTime, Proper;
    if a.Replace? && ph.Flushed? {
      CommitKeepsLedger(limits, s, s', a.p, Saved(ph.op, true), ph.id);
      CommitKeepsPhases(limits, s, s', a.p, Saved(ph.op, true), ph.id);
    } else if a.WriteFails? && (ph.Writing? || ph.Flushed?) {
      CommitKeepsLedger(limits, s, s', a.p, Saved(ph.op, false), ph.id);
      CommitKeepsPhases(limits, s, s', a.p, Saved(ph.op, false), ph.id);
    }
  }

  /** A look at the file as it is now. */
  lemma LookNow(limits: Limits, s: System)
    requires s.file == Run(limits, s.log).ledger && Answers(limits, s) && LooksOk(limits, s)
    ensures LooksOk(limits, Do(limits, s, Observe))
  {
    var s' := Do(limits, s, Observe);
    hide Run, ReplyTo;
    assert s.log[..|s.log|] == s.log;
    forall i | 0 <= i < |s'.looks| ensures LookOk(limits, s', s'.looks[i]) {
      if i < |s.looks| {
        assert LookOk(limits, s, s.looks[i]);
      } else {
        forall k | 0 <= k < |s.finished| ensures s.finished[k].at < |s.log| {
          assert AnsweredSerially(limits, s, s.finished[k].id, s.finished[k].at, s.finished[k].reply);
        }
      }
    }
    forall i | 0 <= i < |s.looks| ensures s.looks[i].logged <= |s.log| && s.looks[i].answered <= |s.finished| {
      assert LookOk(limits, s, s.looks[i]);
    }
  }

  lemma ObserveKeepsInv(limits: Limits, s: System)
    requires SystemInv(limits, s)
    ensures SystemInv(limits, Do(limits, s, Observe))
  {
    LookNow(limits, s);
    var s' := Do(limits, s, Observe);
    SameAnswers(limits, s, s');
    hide ReplyTo, Changes, Next, Run, EachOnce, Answers, RealTime, LooksOk, Proper;
    forall q: Pid ensures PhaseOk(limits, s', q) {
      SamePhase(limits, s, s', q);
    }
  }

  lemma SamePhase(limits: Limits, s: System, s': System, q: Pid)
    requires PhaseOk(limits, s, q) && s' == s.(looks := s'.looks)
    ensures PhaseOk(limits, s', q)
  {
    hide ReplyTo, Changes, Next, Run;
  }

  lemma DoKeepsInv(limits: Limits, s: System, a: Action)
    requires SystemInv(limits, s)
    ensures SystemInv(limits, Do(limits, s, a))
  {
    hide SystemInv, Do;
    match a
    case Observe => ObserveKeepsInv(limits, s);
    case Begin(p, op) => BeginKeepsInv(limits, s, p, op);
    case Decide(p) => DecideKeepsInv(limits, s, p);
    case Replace(_) => WriteStepKeepsInv(limits, s, a);
    case WriteFails(_) => WriteStepKeepsInv(limits, s, a);
    case Unlock(p) => UnlockKeepsInv(limits, s, p);
    case _ => EntryStepKeepsInv(limits, s, a);
  }

  lemma {:induction false} DoAllKeepsInv(limits: Limits, s: System, actions: seq<Action>)
    requires SystemInv(limits, s)
    ensures SystemInv(limits, DoAll(limits, s, actions))
  {
    hide SystemInv, Do;
    if actions != [] {
      DoAllKeepsInv(limits, s, actions[..|actions| - 1]);
      DoKeepsInv(limits, DoAll(limits, s, actions[..|actions| - 1]), actions[|actions| - 1]);
    }
  }

  lemma BootIsStart(limits: Limits)
    ensures BOOT.file == Run(limits, BOOT.log).ledger
    ensures forall p :: PhaseOk(limits, BOOT, p)
  {
  }

  lemma ExecKeepsInv(limits: Limits, actions: seq<Action>)
    ensures SystemInv(limits, Exec(limits, actions))
  {
    hide Run, PhaseOk, AnsweredSerially, LookOk;
    BootIsStart(limits);
    assert SystemInv(limits, BOOT);
    hide SystemInv;
    DoAllKeepsInv(limits, BOOT, actions);
  }
}
