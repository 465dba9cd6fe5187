/** The whole spending protocol: any number of callers that ask the gate, build, submit, watch and
    give back, against an endpoint that answers as it likes and a chain that may take a submitted
    transaction at any later time, with crashes between any two steps. The one assumption is that
    a payment refused at preflight, other than as already processed, never lands; a refused deposit
    or claim may still land, since neither is given back. */
module SpendProtocol {
  import opened Wrappers
  import opened SpendLedger
  import opened SpendRuns
  import opened Payment

  datatype Stage = Cleared | Signed | Submitted | Undoing | Ended

  datatype Attempt = Attempt(
    kind: Kind,
    token: string,
    rest: string,
    entry: Entry,
    stage: Stage,
    sent: bool,
    refused: bool,
    landed: bool,
    released: bool)

  datatype World = World(run: State, attempts: seq<Attempt>)

  datatype Action =
    | Ask(kind: Kind, token: string, rest: string, clock: real, saved: bool)
    | BuildFails(i: nat)
    | Build(i: nat)
    | Submit(i: nat)
    | PreflightRefuses(i: nat, text: string)
    | StopWatching(i: nat)
    | Undo(i: nat, saved: bool)
    | Land(i: nat)
    | CallerDies(i: nat)

  function SpendEvent(k: Kind, token: string, rest: string, clock: real, saved: bool): Event {
    Spend(Asks(k), clock, Label(k), Detail(token, rest), saved)
  }

  function UndoEvent(a: Attempt, saved: bool): Event {
    GiveBack(Label(a.kind), Detail(a.token, a.rest), ReleaseAmount(a.kind, a.entry.lamports), saved)
  }

  /** Tokens are drawn at random; a fresh one differs from every earlier one. */
  predicate Fresh(attempts: seq<Attempt>, k: Kind, token: string) {
    |token| == TokenLength(k) && forall a :: a in attempts && Label(a.kind) == Label(k) ==> a.token != token
  }

  function Set(w: World, i: nat, a: Attempt): World
    requires i < |w.attempts|
  {
    w.(attempts := w.attempts[i := a])
  }

  function DoAsk(limits: Limits, w: World, k: Kind, token: string, rest: string, clock: real, saved: bool): World {
    var ev := SpendEvent(k, token, rest, clock, saved);
    if ReachesGate(k) && Fresh(w.attempts, k, token) && Approves(limits, w.run.ledger, ev) then
      World(Step(limits, w.run, ev),
            w.attempts + [Attempt(k, token, rest, EntryFor(limits, w.run.ledger, ev), Cleared, false, false, false, false)])
    else w
  }

  function Do(limits: Limits, w: World, act: Action): World {
    if act.Ask? then DoAsk(limits, w, act.kind, act.token, act.rest, act.clock, act.saved)
    else if act.i >= |w.attempts| then w
    else
      var i, a := act.i, w.attempts[act.i];
      match act
      case BuildFails(_) => if a.stage == Cleared then Set(w, i, a.(stage := Undoing)) else w
      case Build(_) => if a.stage == Cleared then Set(w, i, a.(stage := Signed)) else w
      case Submit(_) => if a.stage == Signed then Set(w, i, a.(stage := Submitted, sent := true)) else w
      case PreflightRefuses(_, text) =>
        if a.stage != Submitted then w
        else if SaysAlreadyProcessed(text) || !a.kind.Herd? then Set(w, i, a.(stage := Ended))
        else if a.landed then w
        else Set(w, i, a.(refused := true, stage := Undoing))
      case StopWatching(_) => if a.stage == Submitted then Set(w, i, a.(stage := Ended)) else w
      case Undo(_, saved) =>
        if a.stage != Undoing then w
        else
          var after := Step(limits, w.run, UndoEvent(a, saved));
          Set(w, i, a.(stage := Ended, released := after != w.run)).(run := after)
      case Land(_) => if a.sent && !a.refused then Set(w, i, a.(landed := true)) else w
      case CallerDies(_) => Set(w, i, a.(stage := Ended))
  }

  function Exec(limits: Limits, acts: seq<Action>): World {
    if acts == [] then World(START, []) else Do(limits, Exec(limits, acts[..|acts| - 1]), acts[|acts| - 1])
  }

  // ---- the invariant ----

  /** The entries of the attempts that were not given back, in order. */
  function Active(attempts: seq<Attempt>): seq<Entry> {
    if attempts == [] then []
    else Active(attempts[..|attempts| - 1])
         + (if attempts[|attempts| - 1].released then [] else [attempts[|attempts| - 1].entry])
  }

  ghost predicate AttemptOk(limits: Limits, a: Attempt) {
    && |a.token| == TokenLength(a.kind)
    && Charge(limits, Asks(a.kind)) == Success(a.entry.lamports)
    && a.entry.path == Label(a.kind)
    && a.entry.detail == Truncate(Detail(a.token, a.rest))
    && (a.landed ==> a.sent && !a.refused && !a.released)
    && (a.released ==> a.stage == Ended && (a.refused || !a.sent))
    && (a.stage == Undoing ==> a.refused || !a.sent)
    && (a.stage == Cleared || a.stage == Signed ==> !a.sent)
    && (a.stage == Submitted ==> a.sent)
    && (a.refused ==> a.sent && (a.stage == Undoing || a.stage == Ended))
  }

  ghost predicate TokensDiffer(attempts: seq<Attempt>) {
    forall i, j :: 0 <= i < j < |attempts| && Label(attempts[i].kind) == Label(attempts[j].kind)
                   ==> attempts[i].token != attempts[j].token
  }

  ghost predicate WorldInv(limits: Limits, w: World) {
    && Inv(limits, w.run)
    && IntervalsCapped(limits, w.run, CLOCK_SLACK)
    && w.run.active == Active(w.attempts)
    && (forall a :: a in w.attempts ==> AttemptOk(limits, a))
    && TokensDiffer(w.attempts)
  }

  lemma {:induction false} ActiveAfterSet(attempts: seq<Attempt>, i: nat, a: Attempt)
    requires i < |attempts| && a.entry == attempts[i].entry && a.released == attempts[i].released
    ensures Active(attempts[i := a]) == Active(attempts)
  {
    var n := |attempts| - 1;
    if i == n {
      assert attempts[i := a][..n] == attempts[..n];
    } else {
      assert attempts[i := a][..n] == attempts[..n][i := a];
      ActiveAfterSet(attempts[..n], i, a);
    }
  }

  lemma {:induction false} ActiveAfterRelease(attempts: seq<Attempt>, i: nat, a: Attempt)
    requires i < |attempts| && !attempts[i].released && a.released
    requires forall j :: 0 <= j < |attempts| && j != i ==> attempts[j].entry != attempts[i].entry
    ensures Active(attempts[i := a]) == Without(Active(attempts), attempts[i].entry)
  {
    var n := |attempts| - 1;
    var last := attempts[n];
    if i == n {
      assert attempts[i := a][..n] == attempts[..n];
      assert Active(attempts)[..|Active(attempts)| - 1] == Active(attempts[..n]);
    } else {
      assert attempts[i := a][..n] == attempts[..n][i := a];
      ActiveAfterRelease(attempts[..n], i, a);
      assert attempts[i := a][n] == last;
      if last.released {
        assert Active(attempts) == Active(attempts[..n]);
      } else {
        assert Active(attempts)[..|Active(attempts)| - 1] == Active(attempts[..n]);
      }
    }
  }

  lemma {:induction false} ActiveComesFromAttempt(attempts: seq<Attempt>, e: Entry) returns (j: nat)
    requires e in Active(attempts)
    ensures j < |attempts| && !attempts[j].released && attempts[j].entry == e
  {
    var n := |attempts| - 1;
    if !attempts[n].released && attempts[n].entry == e {
      j := n;
    } else {
      j := ActiveComesFromAttempt(attempts[..n], e);
    }
  }

  lemma EntriesDiffer(limits: Limits, attempts: seq<Attempt>, i: nat, j: nat)
    requires i < |attempts| && j < |attempts| && TokensDiffer(attempts)
    requires forall a :: a in attempts ==> AttemptOk(limits, a)
    requires attempts[i].entry.path == attempts[j].entry.path
    requires attempts[i].entry.detail == attempts[j].entry.detail
    ensures i == j
  {
    var a, b := attempts[i], attempts[j];
    assert a in attempts && b in attempts;
    assert a.kind.Herd? == b.kind.Herd?;
    TokenSurvivesTruncation(a.token, a.rest, b.token, b.rest);
  }

  lemma SetKeepsInv(limits: Limits, w: World, i: nat, a: Attempt)
    requires WorldInv(limits, w) && i < |w.attempts|
    requires a.entry == w.attempts[i].entry && a.released == w.attempts[i].released
    requires a.kind == w.attempts[i].kind && a.token == w.attempts[i].token
    requires AttemptOk(limits, a)
    ensures WorldInv(limits, Set(w, i, a))
  {
    ActiveAfterSet(w.attempts, i, a);
    forall x | x in w.attempts[i := a] ensures AttemptOk(limits, x) {
      assert x == a || x in w.attempts;
    }
  }

  lemma FreshKeepsTokens(attempts: seq<Attempt>, a: Attempt)
    requires TokensDiffer(attempts) && Fresh(attempts, a.kind, a.token)
    ensures TokensDiffer(attempts + [a])
  {
    var more := attempts + [a];
    forall i, j | 0 <= i < j < |more| && Label(more[i].kind) == Label(more[j].kind) ensures more[i].token != more[j].token {
      assert more[i] in attempts;
    }
  }

  lemma AskAppends(limits: Limits, w: World, k: Kind, token: string, rest: string, clock: real, saved: bool) returns (a: Attempt)
    requires DoAsk(limits, w, k, token, rest, clock, saved) != w
    ensures var ev := SpendEvent(k, token, rest, clock, saved);
            && Fresh(w.attempts, k, token) && Approves(limits, w.run.ledger, ev)
            && a.kind == k && a.token == token && !a.released && AttemptOk(limits, a)
            && a.entry == EntryFor(limits, w.run.ledger, ev)
            && DoAsk(limits, w, k, token, rest, clock, saved) == World(Step(limits, w.run, ev), w.attempts + [a])
  {
    hide Recorded, Fits, Truncate, Detail, Charge;
    a := Attempt(k, token, rest, EntryFor(limits, w.run.ledger, SpendEvent(k, token, rest, clock, saved)), Cleared,
                 false, false, false, false);
  }

  lemma ActiveGrows(attempts: seq<Attempt>, a: Attempt)
    requires !a.released
    ensures Active(attempts + [a]) == Active(attempts) + [a.entry]
  {
    assert (attempts + [a])[..|attempts|] == attempts;
  }

  lemma AskKeepsInv(limits: Limits, w: World, k: Kind, token: string, rest: string, clock: real, saved: bool)
    requires WorldInv(limits, w)
    ensures WorldInv(limits, DoAsk(limits, w, k, token, rest, clock, saved))
  {
    var ev := SpendEvent(k, token, rest, clock, saved);
    if DoAsk(limits, w, k, token, rest, clock, saved) != w {
      var a := AskAppends(limits, w, k, token, rest, clock, saved);
      hide DoAsk, Inv, IntervalsCapped, AttemptOk, TokensDiffer, Fresh, Active, Recorded, Approves, EntryFor;
      StepKeepsInv(limits, w.run, ev);
      StepKeepsIntervals(limits, w.run, ev, CLOCK_SLACK);
      FreshKeepsTokens(w.attempts, a);
      ActiveGrows(w.attempts, a);
    }
  }

  /** The entry a release takes out of the ledger is this attempt's own, never another's. */
  lemma ReleaseTakesItsOwn(limits: Limits, w: World, i: nat)
    requires WorldInv(limits, w) && i < |w.attempts|
    ensures var a := w.attempts[i];
            var found := FindFromEnd(w.run.ledger.entries, Label(a.kind), Detail(a.token, a.rest),
                                     ReleaseAmount(a.kind, a.entry.lamports));
            found.Some? ==> w.run.ledger.entries[found.value] == a.entry && !a.released
  {
    var a := w.attempts[i];
    assert a in w.attempts;
    var found := FindFromEnd(w.run.ledger.entries, Label(a.kind), Detail(a.token, a.rest),
                             ReleaseAmount(a.kind, a.entry.lamports));
    if found.Some? {
      OriginalIsActive(w.run, found.value);
      var j := ActiveComesFromAttempt(w.attempts, w.run.ledger.entries[found.value]);
      EntriesDiffer(limits, w.attempts, i, j);
    }
  }

  lemma UndoKeepsInv(limits: Limits, w: World, i: nat, saved: bool)
    requires WorldInv(limits, w) && i < |w.attempts| && w.attempts[i].stage == Undoing
    ensures WorldInv(limits, Do(limits, w, Undo(i, saved)))
  {
    hide Inv, IntervalsCapped, Charge, Recorded, Fits, Detail, Truncate, DropAt, Matches, Asks, ReleaseAmount;
    var a := w.attempts[i];
    assert a in w.attempts && AttemptOk(limits, a);
    var ev := UndoEvent(a, saved);
    var after := Step(limits, w.run, ev);
    if after == w.run {
      SetKeepsInv(limits, w, i, a.(stage := Ended, released := false));
    } else {
      ReleaseTakesItsOwn(limits, w, i);
      StepKeepsInv(limits, w.run, ev);
      StepKeepsIntervals(limits, w.run, ev, CLOCK_SLACK);
      var a' := a.(stage := Ended, released := true);
      forall j | 0 <= j < |w.attempts| && j != i ensures w.attempts[j].entry != a.entry {
        if w.attempts[j].entry == a.entry {
          EntriesDiffer(limits, w.attempts, i, j);
        }
      }
      ActiveAfterRelease(w.attempts, i, a');
      forall x | x in w.attempts[i := a'] ensures AttemptOk(limits, x) {
        assert x == a' || x in w.attempts;
      }
    }
  }

  lemma DoKeepsInv(limits: Limits, w: World, act: Action)
    requires WorldInv(limits, w)
    ensures WorldInv(limits, Do(limits, w, act))
  {
    if act.Ask? {
      AskKeepsInv(limits, w, act.kind, act.token, act.rest, act.clock, act.saved);
    } else if act.i < |w.attempts| {
      var a := w.attempts[act.i];
      assert a in w.attempts && AttemptOk(limits, a);
      if act.Undo? {
        if a.stage == Undoing {
          UndoKeepsInv(limits, w, act.i, act.saved);
        }
      } else if Do(limits, w, act) != w {
        SetKeepsInv(limits, w, act.i, Do(limits, w, act).attempts[act.i]);
      }
    }
  }

  lemma {:induction false} ExecKeepsInv(limits: Limits, acts: seq<Action>)
    ensures WorldInv(limits, Exec(limits, acts))
  {
    if acts == [] {
      assert Proper([]) && Run(limits, []) == START;
      RunKeepsInv(limits, []);
      SlackBoundsClock(limits, []);
      IntervalCap(limits, [], CLOCK_SLACK);
    } else {
      ExecKeepsInv(limits, acts[..|acts| - 1]);
      DoKeepsInv(limits, Exec(limits, acts[..|acts| - 1]), acts[|acts| - 1]);
    }
  }

  // ---- the cap on what really left ----

  /** Lamports charged for the transactions that landed and whose approval was recorded after `cutoff`. */
  function LandedAfter(attempts: seq<Attempt>, cutoff: real): nat {
    if attempts == [] then 0
    else
      var last := attempts[|attempts| - 1];
      LandedAfter(attempts[..|attempts| - 1], cutoff)
      + (if last.landed && last.entry.ts > cutoff then last.entry.lamports else 0)
  }

  function LandedIn(attempts: seq<Attempt>, w: Interval): nat {
    if attempts == [] then 0
    else
      var last := attempts[|attempts| - 1];
      LandedIn(attempts[..|attempts| - 1], w) + (if last.landed && w.Has(last.entry.ts) then last.entry.lamports else 0)
  }

  /** What the landed transactions themselves moved: less than the charge where the floor or a declared
      price raised it. */
  function MovedIn(attempts: seq<Attempt>, w: Interval): nat {
    if attempts == [] then 0
    else
      var last := attempts[|attempts| - 1];
      MovedIn(attempts[..|attempts| - 1], w) + (if last.landed && w.Has(last.entry.ts) then Moves(last.kind) else 0)
  }

  lemma ChargeCoversMove(limits: Limits, a: Attempt)
    requires AttemptOk(limits, a)
    ensures Moves(a.kind) <= a.entry.lamports && limits.floor <= a.entry.lamports
  {
  }

  lemma {:induction false} MovedWithinLanded(limits: Limits, attempts: seq<Attempt>, w: Interval)
    requires forall a :: a in attempts ==> AttemptOk(limits, a)
    ensures MovedIn(attempts, w) <= LandedIn(attempts, w)
  {
    if attempts != [] {
      var init, last := attempts[..|attempts| - 1], attempts[|attempts| - 1];
      assert last in attempts && forall a :: a in init ==> a in attempts;
      MovedWithinLanded(limits, init, w);
      ChargeCoversMove(limits, last);
    }
  }

  ghost predicate LandedAreKept(attempts: seq<Attempt>) {
    forall i :: 0 <= i < |attempts| && attempts[i].landed ==> !attempts[i].released
  }

  lemma OkAreKept(limits: Limits, attempts: seq<Attempt>)
    requires forall a :: a in attempts ==> AttemptOk(limits, a)
    ensures LandedAreKept(attempts)
  {
    forall i | 0 <= i < |attempts| && attempts[i].landed ensures !attempts[i].released {
      assert attempts[i] in attempts;
    }
  }

  lemma {:induction false} LandedIsActive(attempts: seq<Attempt>, cutoff: real)
    requires LandedAreKept(attempts)
    ensures LandedAfter(attempts, cutoff) <= SumAfter(Active(attempts), cutoff)
  {
    if attempts != [] {
      var init, last := attempts[..|attempts| - 1], attempts[|attempts| - 1];
      LandedIsActive(init, cutoff);
      if last.released {
        assert Active(attempts) == Active(init);
      } else {
        assert Active(attempts)[..|Active(attempts)| - 1] == Active(init);
      }
    }
  }

  lemma {:induction false} LandedInIsActive(attempts: seq<Attempt>, w: Interval)
    requires LandedAreKept(attempts)
    ensures LandedIn(attempts, w) <= SumIn(Active(attempts), w)
  {
    if attempts != [] {
      var init, last := attempts[..|attempts| - 1], attempts[|attempts| - 1];
      LandedInIsActive(init, w);
      if last.released {
        assert Active(attempts) == Active(init);
      } else {
        assert Active(attempts)[..|Active(attempts)| - 1] == Active(init);
      }
    }
  }

  lemma LedgerCoversLanded(limits: Limits, w: World, cutoff: real)
    requires WorldInv(limits, w) && cutoff >= w.run.ledger.lastTs - limits.windowSeconds as real
    ensures LandedAfter(w.attempts, cutoff) <= SumAfter(w.run.ledger.entries, cutoff) <= limits.windowLamports
  {
    OkAreKept(limits, w.attempts);
    LandedIsActive(w.attempts, cutoff);
    SumSplits(w.run.ledger.entries, cutoff);
  }

  /** End to end: after any interleaving of callers, endpoint answers, landings and crashes, the
      charges of the landed transactions approved inside the gate's current window never exceed the
      window cap, the floor of each included. */
  lemma LandedUnderWindowCap(limits: Limits, acts: seq<Action>)
    ensures var w := Exec(limits, acts);
            LandedAfter(w.attempts, w.run.ledger.lastTs - limits.windowSeconds as real) <= limits.windowLamports
  {
    hide WorldInv, Exec;
    ExecKeepsInv(limits, acts);
    var w := Exec(limits, acts);
    LedgerCoversLanded(limits, w, w.run.ledger.lastTs - limits.windowSeconds as real);
  }

  /** The same for every half-open interval of W - 2 seconds anywhere in the history; so the lamports
      the landed transactions moved in it stay under the cap as well. */
  lemma LandedUnderCapAnywhere(limits: Limits, acts: seq<Action>, span: Interval)
    requires span.to - span.from <= limits.windowSeconds as real - CLOCK_SLACK
    ensures MovedIn(Exec(limits, acts).attempts, span) <= LandedIn(Exec(limits, acts).attempts, span) <= limits.windowLamports
  {
    ExecKeepsInv(limits, acts);
    OkAreKept(limits, Exec(limits, acts).attempts);
    LandedInIsActive(Exec(limits, acts).attempts, span);
    MovedWithinLanded(limits, Exec(limits, acts).attempts, span);
  }

  function LandedCount(attempts: seq<Attempt>, w: Interval): nat {
    if attempts == [] then 0
    else
      var last := attempts[|attempts| - 1];
      LandedCount(attempts[..|attempts| - 1], w) + (if last.landed && w.Has(last.entry.ts) then 1 else 0)
  }

  lemma {:induction false} FloorTimesCount(limits: Limits, attempts: seq<Attempt>, w: Interval)
    requires forall a :: a in attempts ==> AttemptOk(limits, a)
    ensures LandedCount(attempts, w) * limits.floor <= LandedIn(attempts, w)
  {
    if attempts != [] {
      var init, last := attempts[..|attempts| - 1], attempts[|attempts| - 1];
      assert last in attempts && forall a :: a in init ==> a in attempts;
      FloorTimesCount(limits, init, w);
      ChargeCoversMove(limits, last);
      hide AttemptOk;
      var n := LandedCount(init, w);
      assert (n + 1) * limits.floor == n * limits.floor + limits.floor;
      assert LandedCount(attempts, w) == n || LandedCount(attempts, w) == n + 1;
    }
  }

  /** Nothing keeps a cleared attempt off the chain: it can be built, sent and land, also when its caller has
      stopped watching or died, and its charge then counts among what landed. */
  lemma SentCanLand(limits: Limits, acts: seq<Action>, i: nat, cutoff: real, end: Action)
    requires i < |Exec(limits, acts).attempts| && Exec(limits, acts).attempts[i].stage == Cleared
    requires end == StopWatching(i) || end == CallerDies(i)
    ensures var w, w' := Exec(limits, acts), Exec(limits, acts + [Build(i), Submit(i), end, Land(i)]);
            && |w'.attempts| == |w.attempts| && w'.attempts[i].landed && w'.attempts[i].stage == Ended && w'.run == w.run
            && LandedAfter(w'.attempts, cutoff)
               == LandedAfter(w.attempts, cutoff)
                  + (if w.attempts[i].entry.ts > cutoff then w.attempts[i].entry.lamports else 0)
  {
    hide Do, WorldInv, LandedAfter;
    ExecKeepsInv(limits, acts);
    var w := Exec(limits, acts);
    FourSteps(limits, acts, Build(i), Submit(i), end, Land(i));
    ClearedIsOk(limits, w, i);
    LandsInFour(limits, w, i, end);
    hide Exec;
    LandsOne(w.attempts, Exec(limits, acts + [Build(i), Submit(i), end, Land(i)]).attempts, i, cutoff);
  }

  lemma FourSteps(limits: Limits, acts: seq<Action>, a: Action, b: Action, c: Action, d: Action)
    ensures Exec(limits, acts + [a, b, c, d]) == Do(limits, Do(limits, Do(limits, Do(limits, Exec(limits, acts), a), b), c), d)
  {
    hide Do;
    var all := acts + [a, b, c, d];
    assert all[..|acts| + 3] == acts + [a, b, c] && (acts + [a, b, c])[..|acts| + 2] == acts + [a, b];
    assert (acts + [a, b])[..|acts| + 1] == acts + [a] && (acts + [a])[..|acts|] == acts;
    assert Exec(limits, acts + [a]) == Do(limits, Exec(limits, acts), a);
    assert Exec(limits, acts + [a, b]) == Do(limits, Exec(limits, acts + [a]), b);
    assert Exec(limits, acts + [a, b, c]) == Do(limits, Exec(limits, acts + [a, b]), c);
  }

  lemma ClearedIsOk(limits: Limits, w: World, i: nat)
    requires WorldInv(limits, w) && i < |w.attempts| && w.attempts[i].stage == Cleared
    ensures !w.attempts[i].sent && !w.attempts[i].refused && !w.attempts[i].landed
  {
    assert w.attempts[i] in w.attempts && AttemptOk(limits, w.attempts[i]);
  }

  lemma LandsInFour(limits: Limits, w: World, i: nat, end: Action)
    requires i < |w.attempts| && w.attempts[i].stage == Cleared && !w.attempts[i].refused
    requires end == StopWatching(i) || end == CallerDies(i)
    ensures var w' := Do(limits, Do(limits, Do(limits, Do(limits, w, Build(i)), Submit(i)), end), Land(i));
            && w'.run == w.run && |w'.attempts| == |w.attempts|
            && w'.attempts[i].landed && w'.attempts[i].stage == Ended && w'.attempts[i].entry == w.attempts[i].entry
            && forall j :: 0 <= j < |w.attempts| && j != i ==> w'.attempts[j] == w.attempts[j]
  {
  }

  lemma {:induction false} LandsOne(before: seq<Attempt>, after: seq<Attempt>, i: nat, cutoff: real)
    requires i < |before| == |after| && !before[i].landed && after[i].landed && after[i].entry == before[i].entry
    requires forall j :: 0 <= j < |before| && j != i ==> after[j] == before[j]
    ensures LandedAfter(after, cutoff)
         == LandedAfter(before, cutoff) + (if before[i].entry.ts > cutoff then before[i].entry.lamports else 0)
  {
    var n := |before| - 1;
    if i == n {
      assert after[..n] == before[..n];
    } else {
      LandsOne(before[..n], after[..n], i, cutoff);
    }
  }

  /** What the floor is for: however cheap each one claims to be, the number of landed transactions in
      any such interval, times the floor, stays under the cap. */
  lemma FloorBoundsFreeSpends(limits: Limits, acts: seq<Action>, span: Interval)
    requires span.to - span.from <= limits.windowSeconds as real - CLOCK_SLACK
    ensures LandedCount(Exec(limits, acts).attempts, span) * limits.floor <= limits.windowLamports
  {
    ExecKeepsInv(limits, acts);
    LandedUnderCapAnywhere(limits, acts, span);
    FloorTimesCount(limits, Exec(limits, acts).attempts, span);
  }

  /** A released attempt stays released and off the chain through any step. */
  lemma ReleasedStays(limits: Limits, w: World, act: Action, i: nat)
    requires WorldInv(limits, w) && i < |w.attempts| && w.attempts[i].released
    ensures var w' := Do(limits, w, act);
            i < |w'.attempts| && w'.attempts[i].released && w'.attempts[i].entry == w.attempts[i].entry
  {
    hide Inv, IntervalsCapped, Charge, Detail, Truncate, Recorded, Fits;
    assert w.attempts[i] in w.attempts;
  }

  lemma {:induction false} ReleasedStaysOn(limits: Limits, acts: seq<Action>, more: seq<Action>, i: nat)
    requires i < |Exec(limits, acts).attempts| && Exec(limits, acts).attempts[i].released
    ensures i < |Exec(limits, acts + more).attempts| && Exec(limits, acts + more).attempts[i].released
  {
    if more == [] {
      assert acts + more == acts;
    } else {
      var init := more[..|more| - 1];
      assert (acts + more)[..|acts + more| - 1] == acts + init;
      ReleasedStaysOn(limits, acts, init, i);
      ExecKeepsInv(limits, acts + init);
      hide WorldInv, Do;
      ReleasedStays(limits, Exec(limits, acts + init), more[|more| - 1], i);
    }
  }

  /** Budget only comes back for a transaction that was never sent or was refused at preflight, and
      such a transaction stays off the chain in every continuation. */
  lemma ReleasedNeverLands(limits: Limits, acts: seq<Action>, more: seq<Action>, i: nat)
    requires i < |Exec(limits, acts).attempts| && Exec(limits, acts).attempts[i].released
    ensures i < |Exec(limits, acts + more).attempts|
    ensures var a := Exec(limits, acts + more).attempts[i]; a.released && !a.landed && (a.refused || !a.sent)
  {
    ReleasedStaysOn(limits, acts, more, i);
    ExecKeepsInv(limits, acts + more);
    assert Exec(limits, acts + more).attempts[i] in Exec(limits, acts + more).attempts;
  }

  // ---- what a release undoes ----

  /** An entry no older than the others survives compaction. */
  lemma CompactKeepsNewest(live: seq<Entry>, e: Entry)
    requires |live| < MAX_ENTRIES || forall x :: x in live ==> x.ts <= e.ts
    ensures e in Compact(live + [e])
  {
    var es := live + [e];
    assert es[|live|] == e;
    if |es| > MAX_ENTRIES {
      var sorted := SortByTs(live);
      assert es[..|es| - 1] == live;
      SortLength(live);
      SortLength(es);
      if sorted != [] {
        var last := sorted[|sorted| - 1];
        CountIsMembership(sorted, last);
        SortIsPermutation(live, last);
        CountIsMembership(live, last);
      }
      assert SortByTs(es) == sorted + [e];
      hide SortByTs, Merged;
      var split := |es| - (MAX_ENTRIES - 1);
      assert SortByTs(es)[split..][|es| - 1 - split] == e;
    }
  }

  lemma AskAddsEntry(limits: Limits, w: World, k: Kind, token: string, rest: string, clock: real)
    requires DoAsk(limits, w, k, token, rest, clock, true) != w
    ensures var w1 := DoAsk(limits, w, k, token, rest, clock, true);
            && |w1.attempts| == |w.attempts| + 1
            && w1.attempts[|w.attempts|].stage == Cleared && !w1.attempts[|w.attempts|].released
            && w1.attempts[|w.attempts|].kind == k
            && w1.attempts[|w.attempts|].token == token && w1.attempts[|w.attempts|].rest == rest
            && w1.attempts[|w.attempts|].entry.ts == EffectiveNow(w.run.ledger.lastTs, clock)
            && w1.run.ledger.entries
               == Compact(Live(w.run.ledger.entries, EffectiveNow(w.run.ledger.lastTs, clock), limits.windowSeconds)
                          + [w1.attempts[|w.attempts|].entry])
  {
    hide Compact, After, Fits, Charge;
  }

  function FailAndUndo(limits: Limits, w: World, i: nat): World {
    Do(limits, Do(limits, w, BuildFails(i)), Undo(i, true))
  }

  /** The amount a caller names on release is the charged one. */
  predicate NamesItsCharge(limits: Limits, k: Kind) {
    k.Herd? || Asks(k) >= limits.floor
  }

  /** A cleared attempt that fails to build and undoes itself: its charge comes back exactly when it
      names it and its entry is still in the ledger on its own. */
  lemma FailAndUndoTakes(limits: Limits, w: World, i: nat)
    requires WorldInv(limits, w) && i < |w.attempts| && w.attempts[i].stage == Cleared && !w.attempts[i].released
    ensures var a, w2 := w.attempts[i], FailAndUndo(limits, w, i);
            && (w2.attempts[i].released <==> NamesItsCharge(limits, a.kind) && a.entry in w.run.ledger.entries)
            && Sum(w2.run.ledger.entries) == Sum(w.run.ledger.entries) - (if w2.attempts[i].released then a.entry.lamports else 0)
            && (w2.attempts[i].released ==>
                  exists j :: 0 <= j < |w.run.ledger.entries| && w.run.ledger.entries[j] == a.entry
                              && w2.run.ledger.entries == DropAt(w.run.ledger.entries, j)
                              && forall m :: j < m < |w.run.ledger.entries| ==> w.run.ledger.entries[m] != a.entry)
            && (!w2.attempts[i].released ==> w2.run == w.run)
  {
    var a := w.attempts[i];
    assert a in w.attempts && AttemptOk(limits, a);
    var es := w.run.ledger.entries;
    var amount := ReleaseAmount(a.kind, a.entry.lamports);
    var found := FindFromEnd(es, Label(a.kind), Detail(a.token, a.rest), amount);
    ReleaseTakesItsOwn(limits, w, i);
    hide Inv, IntervalsCapped, Sum, FindFromEnd;
    if found.Some? {
      assert es[found.value] == a.entry;
      assert amount == a.entry.lamports;
      DropSums(es, found.value, 0.0);
      assert |DropAt(es, found.value)| == |es| - 1;
    } else if a.entry in es {
      var j :| 0 <= j < |es| && es[j] == a.entry;
      assert !Matches(es[j], Label(a.kind), Detail(a.token, a.rest), amount);
    }
  }

  /** A failed build right after an approval. The release gives the charge back exactly when the attempt
      names the charged amount and its entry was not folded away by compaction; then the live total is
      what the approval found, and otherwise the charge stands. A payment always names its charge, a
      deposit or a claim exactly when it asked for at least the floor. The entry is there whenever the
      ledger was not full or held nothing newer; and when it was not full, the live entries themselves
      are restored. */
  lemma ReleaseUndoesApproval(limits: Limits, w: World, k: Kind, token: string, rest: string, clock: real)
    requires WorldInv(limits, w)
    requires DoAsk(limits, w, k, token, rest, clock, true) != w
    ensures var i := |w.attempts|;
            var now := EffectiveNow(w.run.ledger.lastTs, clock);
            var live := Live(w.run.ledger.entries, now, limits.windowSeconds);
            var w1 := DoAsk(limits, w, k, token, rest, clock, true);
            |w1.attempts| == i + 1 && var w2, e := FailAndUndo(limits, w1, i), w1.attempts[i].entry;
            && (w2.attempts[i].released <==> NamesItsCharge(limits, k) && e in w1.run.ledger.entries)
            && Sum(w2.run.ledger.entries) == Sum(live) + (if w2.attempts[i].released then 0 else e.lamports)
            && (!w2.attempts[i].released ==> w2.run == w1.run)
            && (|live| < MAX_ENTRIES || (forall x :: x in live ==> x.ts <= now) ==> e in w1.run.ledger.entries)
            && (|live| < MAX_ENTRIES && NamesItsCharge(limits, k) ==> w2.run.ledger.entries == live)
  {
    hide WorldInv, DoAsk, FailAndUndo, Sum, Compact, After, NamesItsCharge;
    var i := |w.attempts|;
    var live := Live(w.run.ledger.entries, EffectiveNow(w.run.ledger.lastTs, clock), limits.windowSeconds);
    var w1 := DoAsk(limits, w, k, token, rest, clock, true);
    AskAddsEntry(limits, w, k, token, rest, clock);
    AskKeepsInv(limits, w, k, token, rest, clock, true);
    CompactedWith(live, w1.attempts[i].entry);
    FailAndUndoTakes(limits, w1, i);
    if |live| < MAX_ENTRIES && NamesItsCharge(limits, k) {
      DroppedFromEnd(live, w1.attempts[i].entry, FailAndUndo(limits, w1, i).run.ledger.entries);
    }
  }

  /** One more entry, compacted. */
  lemma CompactedWith(live: seq<Entry>, e: Entry)
    ensures Sum(Compact(live + [e])) == Sum(live) + e.lamports
    ensures |live| < MAX_ENTRIES || (forall x :: x in live ==> x.ts <= e.ts) ==> e in Compact(live + [e])
    ensures |live| < MAX_ENTRIES ==> Compact(live + [e]) == live + [e]
  {
    if |live| < MAX_ENTRIES || forall x :: x in live ==> x.ts <= e.ts {
      CompactKeepsNewest(live, e);
    }
    hide Sum, SumAfter, SumUpTo;
    CompactNeverUnderCounts(live + [e], 0.0);
    SumAppend(live, [e], 0.0);
    Single(e, 0.0);
  }

  lemma DroppedFromEnd(live: seq<Entry>, e: Entry, rest: seq<Entry>)
    requires exists j :: 0 <= j < |live + [e]| && (live + [e])[j] == e && rest == DropAt(live + [e], j)
                         && forall m :: j < m < |live + [e]| ==> (live + [e])[m] != e
    ensures rest == live
  {
    var es := live + [e];
    var j :| 0 <= j < |es| && es[j] == e && rest == DropAt(es, j) && forall m :: j < m < |es| ==> es[m] != e;
    assert es[|live|] == e;
    assert j == |live|;
    assert DropAt(es, |live|) == live;
  }
}
