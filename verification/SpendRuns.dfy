/** Whole runs of the gate: any sequence of spends and give-backs, with any clock readings.
    `active` is the history of approvals that were not given back; the ledger is what the
    gate really keeps of it after pruning and compaction. */
module SpendRuns {
  import opened Wrappers
  import opened SpendLedger

  datatype Event =
    | Spend(quoted: int, clock: real, path: string, detail: string, saved: bool)
    | GiveBack(path: string, detail: string, charged: int, saved: bool)

  datatype State = State(ledger: Ledger, active: seq<Entry>)

  const START := State(EMPTY, [])

  predicate Approves(limits: Limits, l: Ledger, ev: Event)
    requires ev.Spend?
  {
    ev.saved && Charge(limits, ev.quoted).Success? && Fits(limits, l, ev.clock, Charge(limits, ev.quoted).value)
  }

  function EntryFor(limits: Limits, l: Ledger, ev: Event): Entry
    requires ev.Spend? && Charge(limits, ev.quoted).Success?
  {
    Entry(EffectiveNow(l.lastTs, ev.clock), Charge(limits, ev.quoted).value, ev.path, Truncate(ev.detail))
  }

  /** Takes one occurrence of `e` (the last) out of a history. */
  function Without(es: seq<Entry>, e: Entry): seq<Entry> {
    if es == [] then []
    else if es[|es| - 1] == e then es[..|es| - 1]
    else Without(es[..|es| - 1], e) + [es[|es| - 1]]
  }

  function Step(limits: Limits, s: State, ev: Event): State {
    match ev
    case Spend(quoted, clock, path, detail, saved) =>
      if Approves(limits, s.ledger, ev) then
        State(Recorded(limits, s.ledger, clock, Charge(limits, quoted).value, path, detail),
              s.active + [EntryFor(limits, s.ledger, ev)])
      else s
    case GiveBack(path, detail, charged, saved) =>
      var found := FindFromEnd(s.ledger.entries, path, detail, charged);
      if saved && found.Some? then
        State(GivenBack(s.ledger, path, detail, charged), Without(s.active, s.ledger.entries[found.value]))
      else s
  }

  function Run(limits: Limits, events: seq<Event>): State {
    if events == [] then START else Step(limits, Run(limits, events[..|events| - 1]), events[|events| - 1])
  }

  /** Path labels are the callers' own constants, never the compaction label. */
  predicate Proper(events: seq<Event>) {
    forall ev :: ev in events ==> ev.path != COMPACTED
  }

  /** No recorded time falls more than `back` seconds below the newest one already seen. */
  predicate ClockBack(limits: Limits, events: seq<Event>, back: real) {
    if events == [] then true
    else
      && ClockBack(limits, events[..|events| - 1], back)
      && var ev := events[|events| - 1];
      ev.Spend? ==>
        EffectiveNow(Run(limits, events[..|events| - 1]).ledger.lastTs, ev.clock)
        >= Run(limits, events[..|events| - 1]).ledger.lastTs - back
  }

  /** A half-open interval of recorded times: [from, to) or (from, to]. */
  datatype Interval = Interval(from: real, to: real, closedLeft: bool) {
    predicate Has(ts: real) {
      if closedLeft then from <= ts < to else from < ts <= to
    }
  }

  function SumIn(es: seq<Entry>, w: Interval): nat {
    if es == [] then 0
    else SumIn(es[..|es| - 1], w) + (if w.Has(es[|es| - 1].ts) then es[|es| - 1].lamports else 0)
  }

  lemma {:induction false} SumInIsPart(es: seq<Entry>, w: Interval, cutoff: real)
    requires forall ts :: w.Has(ts) ==> ts > cutoff
    ensures SumIn(es, w) <= SumAfter(es, cutoff)
  {
    if es != [] {
      SumInIsPart(es[..|es| - 1], w, cutoff);
    }
  }

  // ---- the invariant ----

  /** For every cutoff the gate can still use, the ledger counts at least the whole history. */
  ghost predicate NeverUnderCounts(limits: Limits, s: State) {
    forall c :: c >= s.ledger.lastTs - limits.windowSeconds as real ==>
                  SumAfter(s.ledger.entries, c) >= SumAfter(s.active, c)
  }

  /** No entry a caller wrote occurs more often in the ledger than in the history. */
  ghost predicate EntriesAreActive(s: State) {
    forall e: Entry :: e.path != COMPACTED ==> Count(s.ledger.entries, e) <= Count(s.active, e)
  }

  ghost predicate IntervalsCapped(limits: Limits, s: State, back: real) {
    forall w: Interval :: w.to - w.from <= limits.windowSeconds as real - back ==>
                            SumIn(s.active, w) <= limits.windowLamports
  }

  ghost predicate Inv(limits: Limits, s: State) {
    && NeverUnderCounts(limits, s)
    && EntriesAreActive(s)
    && Sum(s.ledger.entries) <= limits.windowLamports
    && |s.ledger.entries| <= MAX_ENTRIES
  }

  lemma RecordedNeverUnderCounts(limits: Limits, s: State, ev: Event)
    requires NeverUnderCounts(limits, s) && ev.Spend? && Approves(limits, s.ledger, ev)
    ensures NeverUnderCounts(limits, Step(limits, s, ev))
    ensures Step(limits, s, ev).ledger.lastTs >= s.ledger.lastTs
  {
    hide Sum, SumAfter, SumUpTo, Compact, After;
    var s' := Step(limits, s, ev);
    var e := EntryFor(limits, s.ledger, ev);
    var live := Live(s.ledger.entries, e.ts, limits.windowSeconds);
    forall c | c >= s'.ledger.lastTs - limits.windowSeconds as real
      ensures SumAfter(s'.ledger.entries, c) >= SumAfter(s'.active, c)
    {
      AfterKeepsLater(s.ledger.entries, e.ts - limits.windowSeconds as real, c);
      CompactNeverUnderCounts(live + [e], c);
      SumAppend(live, [e], c);
      SumAppend(s.active, [e], c);
    }
  }

  lemma RecordedSum(limits: Limits, l: Ledger, ev: Event)
    requires ev.Spend? && Approves(limits, l, ev)
    ensures var r := Recorded(limits, l, ev.clock, Charge(limits, ev.quoted).value, ev.path, ev.detail);
            Sum(r.entries) <= limits.windowLamports && |r.entries| <= MAX_ENTRIES
  {
    var e := EntryFor(limits, l, ev);
    var live := Live(l.entries, e.ts, limits.windowSeconds);
    hide Sum, SumAfter, SumUpTo, Compact, After;
    CompactNeverUnderCounts(live + [e], 0.0);
    SumAppend(live, [e], 0.0);
    Single(e, 0.0);
  }

  lemma RecordedEntriesActive(limits: Limits, s: State, ev: Event)
    requires EntriesAreActive(s) && ev.Spend? && Approves(limits, s.ledger, ev)
    ensures EntriesAreActive(Step(limits, s, ev))
  {
    hide Count, Compact, After, Fits, Charge;
    var s' := Step(limits, s, ev);
    var x := EntryFor(limits, s.ledger, ev);
    var live := Live(s.ledger.entries, x.ts, limits.windowSeconds);
    forall e: Entry | e.path != COMPACTED ensures Count(s'.ledger.entries, e) <= Count(s'.active, e) {
      AfterIsPart(s.ledger.entries, x.ts - limits.windowSeconds as real, e);
      CompactInventsNothing(live + [x], e);
      CountAppend(live, [x], e);
      CountAppend(s.active, [x], e);
    }
  }

  lemma {:induction false} WithoutSums(es: seq<Entry>, e: Entry, c: real)
    requires e in es
    ensures SumAfter(Without(es, e), c) == SumAfter(es, c) - if e.ts > c then e.lamports else 0
  {
    var init, last := es[..|es| - 1], es[|es| - 1];
    assert es == init + [last];
    if last != e {
      WithoutSums(init, e, c);
      SumAppend(Without(init, e), [last], c);
      assert [last][..0] == [];
    }
  }

  lemma {:induction false} WithoutCount(es: seq<Entry>, x: Entry, e: Entry)
    ensures Count(Without(es, x), e) == Count(es, e) - if x == e && x in es then 1 else 0
  {
    if es != [] {
      var init, last := es[..|es| - 1], es[|es| - 1];
      assert es == init + [last];
      if last != x {
        WithoutCount(init, x, e);
        CountAppend(Without(init, x), [last], e);
        CountSingle(last, e);
      }
    }
  }

  lemma {:induction false} WithoutSumIn(es: seq<Entry>, e: Entry, w: Interval)
    ensures SumIn(Without(es, e), w) <= SumIn(es, w)
  {
    if es != [] && es[|es| - 1] != e {
      WithoutSumIn(es[..|es| - 1], e, w);
    }
  }

  /** Every entry a caller wrote that is still in the ledger belongs to the history. */
  lemma OriginalIsActive(s: State, i: nat)
    requires EntriesAreActive(s) && i < |s.ledger.entries| && s.ledger.entries[i].path != COMPACTED
    ensures s.ledger.entries[i] in s.active
  {
    var e := s.ledger.entries[i];
    CountIsMembership(s.ledger.entries, e);
    CountIsMembership(s.active, e);
  }

  lemma GivenBackKeepsInv(limits: Limits, s: State, ev: Event)
    requires Inv(limits, s) && ev.GiveBack? && ev.path != COMPACTED
    ensures Inv(limits, Step(limits, s, ev))
  {
    var found := FindFromEnd(s.ledger.entries, ev.path, ev.detail, ev.charged);
    if ev.saved && found.Some? {
      var i := found.value;
      var e := s.ledger.entries[i];
      var s' := Step(limits, s, ev);
      OriginalIsActive(s, i);
      forall c | c >= s'.ledger.lastTs - limits.windowSeconds as real
        ensures SumAfter(s'.ledger.entries, c) >= SumAfter(s'.active, c)
      {
        DropSums(s.ledger.entries, i, c);
        WithoutSums(s.active, e, c);
      }
      DropSums(s.ledger.entries, i, 0.0);
      forall x: Entry | x.path != COMPACTED ensures Count(s'.ledger.entries, x) <= Count(s'.active, x) {
        DropKeepsEntriesActive(s, i, x);
      }
    }
  }

  lemma DropKeepsEntriesActive(s: State, i: nat, e: Entry)
    requires EntriesAreActive(s) && i < |s.ledger.entries| && s.ledger.entries[i].path != COMPACTED
    requires e.path != COMPACTED
    ensures Count(DropAt(s.ledger.entries, i), e) <= Count(Without(s.active, s.ledger.entries[i]), e)
  {
    OriginalIsActive(s, i);
    DropCount(s.ledger.entries, i, e);
    WithoutCount(s.active, s.ledger.entries[i], e);
  }

  lemma StepKeepsInv(limits: Limits, s: State, ev: Event)
    requires Inv(limits, s) && ev.path != COMPACTED
    ensures Inv(limits, Step(limits, s, ev))
    ensures Step(limits, s, ev).ledger.lastTs >= s.ledger.lastTs
  {
    if ev.Spend? {
      if Approves(limits, s.ledger, ev) {
        RecordedNeverUnderCounts(limits, s, ev);
        RecordedEntriesActive(limits, s, ev);
        RecordedSum(limits, s.ledger, ev);
      }
    } else {
      GivenBackKeepsInv(limits, s, ev);
    }
  }

  /** Over every run: the ledger never under-counts the history and never holds more than the cap. */
  lemma {:induction false} RunKeepsInv(limits: Limits, events: seq<Event>)
    requires Proper(events)
    ensures Inv(limits, Run(limits, events))
  {
    if events != [] {
      var init := events[..|events| - 1];
      assert forall ev :: ev in init ==> ev in events;
      RunKeepsInv(limits, init);
      assert events[|events| - 1] in events;
      StepKeepsInv(limits, Run(limits, init), events[|events| - 1]);
    }
  }

  // ---- the interval cap ----

  lemma StepKeepsIntervals(limits: Limits, s: State, ev: Event, back: real)
    requires Inv(limits, s) && ev.path != COMPACTED && back >= 0.0
    requires IntervalsCapped(limits, s, back)
    requires ev.Spend? ==> EffectiveNow(s.ledger.lastTs, ev.clock) >= s.ledger.lastTs - back
    ensures IntervalsCapped(limits, Step(limits, s, ev), back)
  {
    var s' := Step(limits, s, ev);
    forall w: Interval | w.to - w.from <= limits.windowSeconds as real - back
      ensures SumIn(s'.active, w) <= limits.windowLamports
    {
      if ev.GiveBack? {
        if s' != s {
          WithoutSumIn(s.active, s.ledger.entries[FindFromEnd(s.ledger.entries, ev.path, ev.detail, ev.charged).value], w);
        }
      } else if Approves(limits, s.ledger, ev) {
        var e := EntryFor(limits, s.ledger, ev);
        assert s'.active[..|s'.active| - 1] == s.active;
        if w.Has(e.ts) {
          var cutoff := s'.ledger.lastTs - limits.windowSeconds as real;
          SumInIsPart(s'.active, w, cutoff);
          StepKeepsInv(limits, s, ev);
          SumSplits(s'.ledger.entries, cutoff);
        }
      }
    }
  }

  lemma {:induction false} IntervalCap(limits: Limits, events: seq<Event>, back: real)
    requires Proper(events) && back >= 0.0 && ClockBack(limits, events, back)
    ensures IntervalsCapped(limits, Run(limits, events), back)
  {
    if events == [] {
      forall w: Interval ensures SumIn(START.active, w) == 0 {
      }
    } else {
      var init := events[..|events| - 1];
      assert forall ev :: ev in init ==> ev in events;
      assert events[|events| - 1] in events;
      IntervalCap(limits, init, back);
      RunKeepsInv(limits, init);
      StepKeepsIntervals(limits, Run(limits, init), events[|events| - 1], back);
    }
  }

  lemma {:induction false} SlackBoundsClock(limits: Limits, events: seq<Event>)
    ensures ClockBack(limits, events, CLOCK_SLACK)
  {
    if events != [] {
      SlackBoundsClock(limits, events[..|events| - 1]);
    }
  }

  /** The interval cap for every run and every clock: whatever the readings, the approvals that
      were not given back and whose recorded times lie in any half-open interval of
      W - 2 seconds total at most the window cap. */
  lemma WindowCapAnyClock(limits: Limits, events: seq<Event>, w: Interval)
    requires Proper(events)
    requires w.to - w.from <= limits.windowSeconds as real - CLOCK_SLACK
    ensures SumIn(Run(limits, events).active, w) <= limits.windowLamports
  {
    SlackBoundsClock(limits, events);
    IntervalCap(limits, events, CLOCK_SLACK);
  }

  /** With a clock that never reads below the newest recorded time, the cap holds for the
      full window length the documentation promises. */
  lemma WindowCapSteadyClock(limits: Limits, events: seq<Event>, w: Interval)
    requires Proper(events) && ClockBack(limits, events, 0.0)
    requires w.to - w.from <= limits.windowSeconds as real
    ensures SumIn(Run(limits, events).active, w) <= limits.windowLamports
  {
    IntervalCap(limits, events, 0.0);
  }

  // ---- clocks that do not step back ----

  /** The readings the gate is given never decrease, and start at or after the epoch. */
  ghost predicate SteadyReadings(events: seq<Event>) {
    && (forall i :: 0 <= i < |events| && events[i].Spend? ==> events[i].clock >= 0.0)
    && (forall i, j :: 0 <= i < j < |events| && events[i].Spend? && events[j].Spend? ==> events[i].clock <= events[j].clock)
  }

  lemma {:induction false} LastTsIsAReading(limits: Limits, events: seq<Event>, bound: real)
    requires bound >= 0.0 && forall i :: 0 <= i < |events| && events[i].Spend? ==> events[i].clock <= bound
    ensures Run(limits, events).ledger.lastTs <= bound
  {
    hide Fits, Compact, Charge;
    if events != [] {
      LastTsIsAReading(limits, events[..|events| - 1], bound);
    }
  }

  lemma {:induction false} SteadyReadingsKeepClock(limits: Limits, events: seq<Event>)
    requires SteadyReadings(events)
    ensures ClockBack(limits, events, 0.0)
  {
    if events != [] {
      var init, ev := events[..|events| - 1], events[|events| - 1];
      SteadyReadingsKeepClock(limits, init);
      if ev.Spend? {
        LastTsIsAReading(limits, init, ev.clock);
      }
    }
  }

  /** With clock readings that never decrease, the cap holds for every interval of the full window. */
  lemma WindowCapSteadyReadings(limits: Limits, events: seq<Event>, w: Interval)
    requires Proper(events) && SteadyReadings(events)
    requires w.to - w.from <= limits.windowSeconds as real
    ensures SumIn(Run(limits, events).active, w) <= limits.windowLamports
  {
    SteadyReadingsKeepClock(limits, events);
    WindowCapSteadyClock(limits, events, w);
  }

  // ---- how sharp the bound is ----

  ghost predicate AllUpTo(es: seq<Entry>, bound: real) {
    forall e :: e in es ==> e.ts <= bound
  }

  lemma AfterUpTo(es: seq<Entry>, cutoff: real, bound: real)
    requires AllUpTo(es, bound)
    ensures AllUpTo(After(es, cutoff), bound)
  {
    forall e | e in After(es, cutoff) ensures e.ts <= bound {
      CountIsMembership(After(es, cutoff), e);
      AfterIsPart(es, cutoff, e);
      CountIsMembership(es, e);
    }
  }

  lemma SortUpTo(es: seq<Entry>, bound: real)
    requires AllUpTo(es, bound)
    ensures AllUpTo(SortByTs(es), bound)
  {
    forall e | e in SortByTs(es) ensures e.ts <= bound {
      CountIsMembership(SortByTs(es), e);
      SortIsPermutation(es, e);
      CountIsMembership(es, e);
    }
  }

  /** Compaction makes no entry newer than the newest there was. */
  lemma CompactUpTo(es: seq<Entry>, bound: real)
    requires AllUpTo(es, bound)
    ensures AllUpTo(Compact(es), bound)
  {
    hide SortByTs, Sum, MaxTs;
    if |es| > MAX_ENTRIES {
      SortLength(es);
      SortUpTo(es, bound);
      var sorted, split := SortByTs(es), |es| - (MAX_ENTRIES - 1);
      MaxTsBounds(sorted[..split]);
      var newest :| newest in sorted[..split] && newest.ts == MaxTs(sorted[..split]);
      assert newest in sorted;
    }
  }

  lemma UpToAppend(es: seq<Entry>, e: Entry, early: real, bound: real)
    requires AllUpTo(es, early) && early <= bound && e.ts <= bound
    ensures AllUpTo(es + [e], bound)
  {
  }

  lemma DropUpTo(l: Ledger, ev: Event, bound: real)
    requires ev.GiveBack? && AllUpTo(l.entries, bound)
    ensures AllUpTo(GivenBack(l, ev.path, ev.detail, ev.charged).entries, bound)
  {
  }

  lemma RecordedIsPast(limits: Limits, l: Ledger, clock: real, charged: nat, path: string, detail: string)
    requires AllUpTo(l.entries, l.lastTs)
    ensures var r := Recorded(limits, l, clock, charged, path, detail);
            r.lastTs >= l.lastTs && AllUpTo(r.entries, r.lastTs)
  {
    var now := EffectiveNow(l.lastTs, clock);
    var later := if now > l.lastTs then now else l.lastTs;
    var e := Entry(now, charged, path, Truncate(detail));
    hide AllUpTo, After, Compact;
    AfterUpTo(l.entries, now - limits.windowSeconds as real, l.lastTs);
    UpToAppend(Live(l.entries, now, limits.windowSeconds), e, l.lastTs, later);
    CompactUpTo(Live(l.entries, now, limits.windowSeconds) + [e], later);
  }

  /** The ledger never holds an entry newer than its newest recorded time. */
  lemma {:induction false} LedgerIsPast(limits: Limits, events: seq<Event>)
    ensures AllUpTo(Run(limits, events).ledger.entries, Run(limits, events).ledger.lastTs)
  {
    if events != [] {
      var init, ev := events[..|events| - 1], events[|events| - 1];
      LedgerIsPast(limits, init);
      var l := Run(limits, init).ledger;
      hide AllUpTo, Recorded, GivenBack, Fits, Charge;
      match ev {
        case Spend(_, clock, path, detail, _) =>
          if Approves(limits, l, ev) {
            RecordedIsPast(limits, l, clock, Charge(limits, ev.quoted).value, path, detail);
          }
        case GiveBack(_, _, _, _) =>
          DropUpTo(l, ev, l.lastTs);
          GivenBackKeepsLast(l, ev);
      }
    }
  }

  lemma GivenBackKeepsLast(l: Ledger, ev: Event)
    requires ev.GiveBack?
    ensures GivenBack(l, ev.path, ev.detail, ev.charged).lastTs == l.lastTs
  {
  }

  lemma NothingBeyond(l: Ledger, bound: real)
    requires AllUpTo(l.entries, l.lastTs) && l.lastTs <= bound
    ensures SumAfter(l.entries, bound) == 0
  {
    NothingAfter(l.entries, bound);
  }

  const ANY_PATH := "xete_send_message"

  function Paid(amount: nat, clock: real): Event {
    Spend(amount, clock, ANY_PATH, "", true)
  }

  function Batch(amount: nat, clock: real, n: nat): seq<Event> {
    if n == 0 then [] else Batch(amount, clock, n - 1) + [Paid(amount, clock)]
  }

  /** What the gate counts at `clock`, when no entry it holds has expired by then. */
  ghost predicate AllCounted(limits: Limits, l: Ledger, clock: real) {
    SumAfter(l.entries, clock - limits.windowSeconds as real) == Sum(l.entries)
  }

  lemma PaidIs(limits: Limits, s: State, amount: nat, clock: real)
    requires Charge(limits, amount) == Success(amount) && clock >= s.ledger.lastTs - CLOCK_SLACK
    requires Sum(Live(s.ledger.entries, clock, limits.windowSeconds)) + amount <= limits.windowLamports
    ensures var e := Entry(clock, amount, ANY_PATH, "");
            Step(limits, s, Paid(amount, clock))
            == State(Ledger(if clock > s.ledger.lastTs then clock else s.ledger.lastTs,
                            Compact(Live(s.ledger.entries, clock, limits.windowSeconds) + [e])),
                     s.active + [e])
  {
    hide Sum, After, Compact, Charge;
    assert EffectiveNow(s.ledger.lastTs, clock) == clock;
  }

  /** What an approval at `clock` leaves of a ledger of which `counted` lamports still count then. */
  lemma PaidSums(es: seq<Entry>, e: Entry, cutoff: real)
    requires e.ts > cutoff
    ensures Sum(Compact(After(es, cutoff) + [e])) == SumAfter(es, cutoff) + e.lamports
    ensures SumAfter(Compact(After(es, cutoff) + [e]), cutoff) == Sum(Compact(After(es, cutoff) + [e]))
  {
    hide Sum, SumAfter, SumUpTo, After, Compact;
    var live := After(es, cutoff);
    AfterKeepsLater(es, cutoff, cutoff);
    SumAppend(live, [e], cutoff);
    Single(e, cutoff);
    CompactNeverUnderCounts(live + [e], cutoff);
    SumSplits(Compact(live + [e]), cutoff);
  }

  lemma SumInGrows(es: seq<Entry>, e: Entry, w: Interval)
    ensures SumIn(es + [e], w) == SumIn(es, w) + (if w.Has(e.ts) then e.lamports else 0)
  {
    assert (es + [e])[..|es|] == es;
  }

  /** One approved spend at a time at which `counted` lamports still count. */
  lemma PaidStep(limits: Limits, s: State, amount: nat, clock: real, counted: nat, w: Interval)
    requires Charge(limits, amount) == Success(amount) && clock >= s.ledger.lastTs - CLOCK_SLACK
    requires SumAfter(s.ledger.entries, clock - limits.windowSeconds as real) == counted
    requires counted + amount <= limits.windowLamports
    ensures var s' := Step(limits, s, Paid(amount, clock));
            && s'.ledger.lastTs == (if clock > s.ledger.lastTs then clock else s.ledger.lastTs)
            && Sum(s'.ledger.entries) == counted + amount && AllCounted(limits, s'.ledger, clock)
            && SumIn(s'.active, w) == SumIn(s.active, w) + (if w.Has(clock) then amount else 0)
  {
    hide Sum, SumAfter, SumUpTo, After, Compact, Charge, Step, SumIn;
    var e := Entry(clock, amount, ANY_PATH, "");
    var cutoff := clock - limits.windowSeconds as real;
    AfterKeepsLater(s.ledger.entries, cutoff, cutoff);
    PaidIs(limits, s, amount, clock);
    PaidSums(s.ledger.entries, e, cutoff);
    SumInGrows(s.active, e, w);
  }

  function Total(amount: nat, n: nat): nat {
    if n == 0 then 0 else Total(amount, n - 1) + amount
  }

  lemma {:induction false} TotalIsProduct(amount: nat, n: nat)
    ensures Total(amount, n) == n * amount
  {
    if n > 0 {
      TotalIsProduct(amount, n - 1);
      assert n * amount == (n - 1) * amount + amount;
    }
  }

  /** What a batch leaves behind. */
  ghost predicate BatchLeaves(limits: Limits, s: State, s': State, amount: nat, clock: real, n: nat, w: Interval) {
    && s'.ledger.lastTs == (if n > 0 && clock > s.ledger.lastTs then clock else s.ledger.lastTs)
    && Sum(s'.ledger.entries) == Sum(s.ledger.entries) + Total(amount, n) && AllCounted(limits, s'.ledger, clock)
    && SumIn(s'.active, w) == SumIn(s.active, w) + (if w.Has(clock) then Total(amount, n) else 0)
  }

  lemma CountedIs(limits: Limits, l: Ledger, clock: real)
    requires AllCounted(limits, l, clock)
    ensures SumAfter(l.entries, clock - limits.windowSeconds as real) == Sum(l.entries)
  {
  }

  /** What still counts at one time counts at every earlier one. */
  lemma CountedEarlier(limits: Limits, l: Ledger, early: real, late: real)
    requires AllCounted(limits, l, late) && early <= late
    ensures AllCounted(limits, l, early)
  {
    var w := limits.windowSeconds as real;
    SumSplits(l.entries, early - w);
    SumAfterShrinks(l.entries, early - w, late - w);
  }

  lemma {:induction false} SumAfterShrinks(es: seq<Entry>, early: real, late: real)
    requires early <= late
    ensures SumAfter(es, late) <= SumAfter(es, early)
  {
    if es != [] {
      SumAfterShrinks(es[..|es| - 1], early, late);
    }
  }

  lemma BatchGrows(limits: Limits, s: State, m: State, amount: nat, clock: real, n: nat, w: Interval)
    requires Charge(limits, amount) == Success(amount) && n > 0 && clock >= s.ledger.lastTs - CLOCK_SLACK
    requires Sum(s.ledger.entries) + Total(amount, n) <= limits.windowLamports
    requires BatchLeaves(limits, s, m, amount, clock, n - 1, w)
    ensures BatchLeaves(limits, s, Step(limits, m, Paid(amount, clock)), amount, clock, n, w)
  {
    hide Sum, SumAfter, SumIn, Step, Charge, AllCounted;
    CountedIs(limits, m.ledger, clock);
    PaidStep(limits, m, amount, clock, Sum(m.ledger.entries), w);
  }

  lemma NoBatch(limits: Limits, s: State, amount: nat, clock: real, w: Interval)
    requires AllCounted(limits, s.ledger, clock)
    ensures BatchLeaves(limits, s, s, amount, clock, 0, w)
  {
  }

  lemma {:induction false} BatchRuns(limits: Limits, before: seq<Event>, amount: nat, clock: real, n: nat, w: Interval)
    requires Charge(limits, amount) == Success(amount)
    requires clock >= Run(limits, before).ledger.lastTs - CLOCK_SLACK && AllCounted(limits, Run(limits, before).ledger, clock)
    requires Sum(Run(limits, before).ledger.entries) + Total(amount, n) <= limits.windowLamports
    ensures BatchLeaves(limits, Run(limits, before), Run(limits, before + Batch(amount, clock, n)), amount, clock, n, w)
  {
    hide AllCounted, BatchLeaves, Step, Charge, Sum, Run, Paid;
    var all := before + Batch(amount, clock, n);
    if n == 0 {
      assert all == before;
      NoBatch(limits, Run(limits, before), amount, clock, w);
    } else {
      var init := before + Batch(amount, clock, n - 1);
      assert all == init + [Paid(amount, clock)];
      BatchRuns(limits, before, amount, clock, n - 1, w);
      RunOneMore(limits, init, Paid(amount, clock));
      BatchGrows(limits, Run(limits, before), Run(limits, init), amount, clock, n, w);
    }
  }

  function Small(limits: Limits): nat {
    if limits.floor > 1 then limits.floor else 1
  }

  /** The limits leave room for `n` charges of `amount` and a small one, but not for twice `n`. */
  ghost predicate RoomForBatch(limits: Limits, amount: nat, n: nat) {
    && limits.windowSeconds >= 2
    && limits.floor <= amount <= limits.maxLamports
    && Total(amount, n) + Small(limits) <= limits.windowLamports < 2 * Total(amount, n)
  }

  /** A batch at time 10, a small spend a whole window later, and the batch again with the clock set back
      by exactly the slack. */
  function Overfill(limits: Limits, amount: nat, n: nat): seq<Event> {
    var w := limits.windowSeconds as real;
    Batch(amount, 10.0, n) + [Paid(Small(limits), 10.0 + w)] + Batch(amount, 10.0 + w - CLOCK_SLACK, n)
  }

  lemma AmountsPass(limits: Limits, amount: nat, n: nat)
    requires RoomForBatch(limits, amount, n)
    ensures Charge(limits, amount) == Success(amount) && Charge(limits, Small(limits)) == Success(Small(limits))
    ensures Total(amount, n) + Small(limits) <= limits.windowLamports < 2 * Total(amount, n)
  {
    TotalIsProduct(amount, n);
    assert amount > 0;
  }

  lemma {:induction false} BatchIsProper(amount: nat, clock: real, n: nat)
    ensures Proper(Batch(amount, clock, n))
  {
    if n > 0 {
      BatchIsProper(amount, clock, n - 1);
    }
  }

  lemma NothingYet(limits: Limits, w: Interval)
    ensures Run(limits, []) == START && Sum(START.ledger.entries) == SumIn(START.active, w) == 0
    ensures START.ledger.lastTs <= 10.0 && AllCounted(limits, START.ledger, 10.0)
  {
  }

  /** A small spend a whole window after everything else leaves only itself in the ledger. */
  lemma SmallSpend(limits: Limits, s: State, at: real, w: Interval)
    requires Charge(limits, Small(limits)) == Success(Small(limits)) && Small(limits) <= limits.windowLamports
    requires AllUpTo(s.ledger.entries, s.ledger.lastTs) && s.ledger.lastTs <= at - limits.windowSeconds as real
    ensures var s' := Step(limits, s, Paid(Small(limits), at));
            && s'.ledger.lastTs == at && Sum(s'.ledger.entries) == Small(limits)
            && AllCounted(limits, s'.ledger, at - CLOCK_SLACK) && SumIn(s'.active, w) >= SumIn(s.active, w)
  {
    hide Charge, Sum, SumAfter, SumUpTo, SumIn, Step, Paid, Small, AllCounted, AllUpTo;
    NothingBeyond(s.ledger, at - limits.windowSeconds as real);
    PaidStep(limits, s, Small(limits), at, 0, w);
    CountedEarlier(limits, Step(limits, s, Paid(Small(limits), at)).ledger, at - CLOCK_SLACK, at);
  }

  lemma RunOneMore(limits: Limits, before: seq<Event>, ev: Event)
    ensures Run(limits, before + [ev]) == Step(limits, Run(limits, before), ev)
  {
    assert (before + [ev])[..|before|] == before;
    hide Step;
  }

  lemma OverfillIsProper(limits: Limits, amount: nat, n: nat)
    ensures Proper(Overfill(limits, amount, n))
  {
    BatchIsProper(amount, 10.0, n);
    BatchIsProper(amount, 10.0 + limits.windowSeconds as real - CLOCK_SLACK, n);
  }

  /** What a batch adds, seen from a ledger that starts no later. */
  lemma BatchAdds(limits: Limits, s: State, s': State, amount: nat, clock: real, n: nat, w: Interval)
    requires BatchLeaves(limits, s, s', amount, clock, n, w) && w.Has(clock)
    ensures s'.ledger.lastTs <= clock || s'.ledger.lastTs <= s.ledger.lastTs
    ensures SumIn(s'.active, w) == SumIn(s.active, w) + Total(amount, n)
  {
  }

  lemma OverfillIs(limits: Limits, amount: nat, n: nat, at: real)
    requires at == 10.0 + limits.windowSeconds as real
    ensures Overfill(limits, amount, n)
         == (Batch(amount, 10.0, n) + [Paid(Small(limits), at)]) + Batch(amount, at - CLOCK_SLACK, n)
  {
  }

  lemma BatchFromStart(limits: Limits, amount: nat, clock: real, n: nat, w: Interval)
    requires Charge(limits, amount) == Success(amount) && Total(amount, n) <= limits.windowLamports
    requires clock >= 0.0 && AllCounted(limits, START.ledger, clock)
    ensures BatchLeaves(limits, START, Run(limits, Batch(amount, clock, n)), amount, clock, n, w)
  {
    hide Charge, Total, BatchLeaves, Batch, Step;
    assert [] + Batch(amount, clock, n) == Batch(amount, clock, n);
    BatchRuns(limits, [], amount, clock, n, w);
  }

  /** After the batch and the small spend, the second batch fits. */
  lemma FitsTwice(limits: Limits, s: State, s': State, amount: nat, n: nat, at: real, w: Interval)
    requires RoomForBatch(limits, amount, n) && at == 10.0 + limits.windowSeconds as real && w.Has(10.0)
    requires BatchLeaves(limits, START, s, amount, 10.0, n, w) && AllUpTo(s.ledger.entries, s.ledger.lastTs)
    requires s' == Step(limits, s, Paid(Small(limits), at))
    ensures s'.ledger.lastTs == at && AllCounted(limits, s'.ledger, at - CLOCK_SLACK)
    ensures Sum(s'.ledger.entries) + Total(amount, n) <= limits.windowLamports
    ensures SumIn(s'.active, w) >= Total(amount, n)
  {
    AmountsPass(limits, amount, n);
    hide Run, Charge, SumIn, Sum, AllCounted, AllUpTo, Total, RoomForBatch, Small, Paid, Step, START, BatchLeaves;
    NothingYet(limits, w);
    BatchAdds(limits, START, s, amount, 10.0, n, w);
    SmallSpend(limits, s, at, w);
  }

  lemma OverfillRuns(limits: Limits, amount: nat, n: nat, at: real, w: Interval)
    requires RoomForBatch(limits, amount, n) && at == 10.0 + limits.windowSeconds as real
    requires w.Has(10.0) && w.Has(at - CLOCK_SLACK)
    ensures SumIn(Run(limits, Overfill(limits, amount, n)).active, w) > limits.windowLamports
  {
    hide *;
    AmountsPass(limits, amount, n);
    var first, last, small := Batch(amount, 10.0, n), Batch(amount, at - CLOCK_SLACK, n), Paid(Small(limits), at);
    var s := Run(limits, first + [small]);
    assert s.ledger.lastTs == at && AllCounted(limits, s.ledger, at - CLOCK_SLACK)
           && Sum(s.ledger.entries) + Total(amount, n) <= limits.windowLamports
           && SumIn(s.active, w) >= Total(amount, n)
    by {
      NothingYet(limits, w);
      BatchFromStart(limits, amount, 10.0, n, w);
      LedgerIsPast(limits, first);
      RunOneMore(limits, first, small);
      FitsTwice(limits, Run(limits, first), s, amount, n, at, w);
    }
    BatchRuns(limits, first + [small], amount, at - CLOCK_SLACK, n, w);
    BatchAdds(limits, s, Run(limits, first + [small] + last), amount, at - CLOCK_SLACK, n, w);
    OverfillIs(limits, amount, n, at);
  }

  /** No longer window works in general. Under any limits that leave room for a batch and a small spend but
      not for the batch twice, some run puts more than the cap inside an interval longer than W - 2 by
      however little. So the full length W of the documentation fails once a clock is set back, and W - 2
      is exact. */
  lemma WindowCapIsSharp(limits: Limits, amount: nat, n: nat, extra: real)
    requires extra > 0.0 && RoomForBatch(limits, amount, n)
    ensures Proper(Overfill(limits, amount, n))
    ensures SumIn(Run(limits, Overfill(limits, amount, n)).active,
                  Interval(10.0 - extra, 10.0 + limits.windowSeconds as real - CLOCK_SLACK, false))
            > limits.windowLamports
  {
    OverfillIsProper(limits, amount, n);
    var at := 10.0 + limits.windowSeconds as real;
    OverfillRuns(limits, amount, n, at, Interval(10.0 - extra, at - CLOCK_SLACK, false));
    hide Overfill, Run, SumIn, Proper;
  }

  /** The limits a user gets without configuring anything leave that room: four of the largest spends. */
  lemma DefaultsOverfill(extra: real)
    requires extra > 0.0
    ensures var limits := Limits(10_000_000, 50_000_000, 86_400, 2_000_000);
            SumIn(Run(limits, Overfill(limits, 10_000_000, 4)).active, Interval(10.0 - extra, 86_408.0, false))
            > limits.windowLamports
  {
    TotalIsProduct(10_000_000, 4);
    WindowCapIsSharp(Limits(10_000_000, 50_000_000, 86_400, 2_000_000), 10_000_000, 4, extra);
  }
}
