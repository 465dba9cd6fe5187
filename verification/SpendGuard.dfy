/** The gate itself (src/xete_mcp/spendguard.py, `authorize`, `_frees_at`, `status`, and
    the release in src/xete_mcp/payment.py): methods that rewrite the ledger file. */
module SpendGuard {
  import opened Wrappers
  import opened SpendLedger
  import opened LedgerFile

  datatype Approval = Approval(charged: nat, windowSpent: nat, windowRemaining: nat)

  /** Which of the operating-system calls of one run succeed. */
  datatype Io = Io(lockOpens: bool, writes: bool)

  // ---- when a refused spend would fit ----

  lemma {:induction false} NoneUpTo(es: seq<Entry>, cutoff: real)
    requires forall e :: e in es ==> e.ts > cutoff
    ensures SumUpTo(es, cutoff) == 0
  {
    if es != [] {
      assert es[|es| - 1] in es && forall e :: e in es[..|es| - 1] ==> e in es;
      NoneUpTo(es[..|es| - 1], cutoff);
    }
  }

  lemma SumUpToBound(es: seq<Entry>, cutoff: real)
    ensures SumUpTo(es, cutoff) <= Sum(es)
  {
    SumSplits(es, cutoff);
  }

  /** In ascending order a prune at `ordered[i].ts` frees at least the first i + 1 entries,
      and any earlier prune at most the first i: ties fall together. */
  lemma PrefixFreed(ordered: seq<Entry>, i: nat, cutoff: real)
    requires Ascending(ordered) && i < |ordered|
    ensures cutoff >= ordered[i].ts ==> SumUpTo(ordered, cutoff) >= Sum(ordered[..i + 1])
    ensures cutoff < ordered[i].ts ==> SumUpTo(ordered, cutoff) <= Sum(ordered[..i])
  {
    if cutoff >= ordered[i].ts {
      assert ordered == ordered[..i + 1] + ordered[i + 1..];
      SumAppend(ordered[..i + 1], ordered[i + 1..], cutoff);
      SumSplits(ordered[..i + 1], cutoff);
      NothingAfter(ordered[..i + 1], cutoff);
    } else {
      assert ordered == ordered[..i] + ordered[i..];
      SumAppend(ordered[..i], ordered[i..], cutoff);
      NoneUpTo(ordered[i..], cutoff);
      SumUpToBound(ordered[..i], cutoff);
    }
  }

  /** The first position whose running total reaches `needed` gives the earliest cutoff that frees it. */
  lemma FreedHere(entries: seq<Entry>, i: nat, needed: int)
    requires i < |SortByTs(entries)|
    requires i > 0 ==> Sum(SortByTs(entries)[..i]) < needed
    requires Sum(SortByTs(entries)[..i + 1]) >= needed
    ensures entries != [] && Sum(entries) >= needed
    ensures SumUpTo(entries, SortByTs(entries)[i].ts) >= needed
    ensures forall c :: c < SortByTs(entries)[i].ts ==> SumUpTo(entries, c) < needed || SumUpTo(entries, c) == 0
  {
    assert Sum([]) == 0;
    hide SortByTs, SumUpTo, SumAfter, Sum;
    var ordered := SortByTs(entries);
    SortAscends(entries);
    SortLength(entries);
    SortKeepsSums(entries, ordered[i].ts);
    PrefixFreed(ordered, i, ordered[i].ts);
    SumUpToBound(entries, ordered[i].ts);
    assert ordered[..0] == [];
    forall c | c < SortByTs(entries)[i].ts ensures SumUpTo(entries, c) < needed || SumUpTo(entries, c) == 0 {
      SortKeepsSums(entries, c);
      PrefixFreed(ordered, i, c);
    }
  }

  method FreesAt(entries: seq<Entry>, needed: int, windowSeconds: Seconds) returns (r: Option<real>)
    ensures r.None? <==> entries == [] || Sum(entries) < needed
    ensures r.Some? ==> SumUpTo(entries, r.value - windowSeconds as real) >= needed
    ensures r.Some? ==>
              forall c :: c < r.value - windowSeconds as real ==> SumUpTo(entries, c) < needed || SumUpTo(entries, c) == 0
  {
    hide SortByTs, SumUpTo, SumAfter;
    var ordered := SortByTs(entries);
    SortLength(entries);
    var freed := 0;
    for i := 0 to |ordered|
      invariant freed == Sum(ordered[..i])
      invariant i > 0 ==> freed < needed
    {
      assert ordered[..i + 1][..i] == ordered[..i];
      freed := freed + ordered[i].lamports;
      if freed >= needed {
        FreedHere(entries, i, needed);
        return Some(ordered[i].ts + windowSeconds as real);
      }
    }
    assert ordered[..|ordered|] == ordered;
    SortKeepsSums(entries, 0.0);
    r := None;
  }

  /** What `FreesAt` is asked for by a refusal, and what a right answer means for the ledger
      left as it is: approved from that time on, refused at every time before it, and
      never (None) exactly when the charge alone exceeds the cap. */
  ghost predicate FreesExactly(limits: Limits, l: Ledger, clock: real, charged: nat, at: Option<real>) {
    var now := EffectiveNow(l.lastTs, clock);
    && (at.None? <==> charged > limits.windowLamports)
    && (at.Some? ==> forall t :: t >= now ==> (Fits(limits, l, t, charged) <==> t >= at.value))
    && (at.None? ==> forall t :: t >= now ==> !Fits(limits, l, t, charged))
  }

  lemma LaterPrune(limits: Limits, l: Ledger, clock: real, t: real)
    requires t >= EffectiveNow(l.lastTs, clock)
    ensures var live := Live(l.entries, EffectiveNow(l.lastTs, clock), limits.windowSeconds);
            Sum(Live(l.entries, EffectiveNow(l.lastTs, t), limits.windowSeconds))
            == Sum(live) - SumUpTo(live, t - limits.windowSeconds as real)
  {
    hide Sum, SumAfter, SumUpTo, After;
    var now := EffectiveNow(l.lastTs, clock);
    var w := limits.windowSeconds as real;
    assert EffectiveNow(l.lastTs, t) == t;
    AfterKeepsLater(l.entries, t - w, t - w);
    AfterKeepsLater(l.entries, now - w, t - w);
    SumSplits(Live(l.entries, now, limits.windowSeconds), t - w);
  }

  /** By the reported time enough has expired to make room for the charge. */
  predicate ReportCovers(limits: Limits, l: Ledger, clock: real, charged: nat, at: Option<real>) {
    var live := Live(l.entries, EffectiveNow(l.lastTs, clock), limits.windowSeconds);
    at.Some? ==> SumUpTo(live, at.value - limits.windowSeconds as real) >= Sum(live) + charged - limits.windowLamports
  }

  /** The reported time is exact if and only if what has expired by then covers the excess. Within the cap
      it always does; over the cap, which happens when the cap was lowered, the search stops as soon as
      the charge itself has expired, and the report can come too early. */
  lemma FreesAtIsExact(limits: Limits, l: Ledger, clock: real, charged: nat, at: Option<real>)
    requires !Fits(limits, l, clock, charged)
    requires var live := Live(l.entries, EffectiveNow(l.lastTs, clock), limits.windowSeconds);
             var headroom := if limits.windowLamports > Sum(live) then limits.windowLamports - Sum(live) else 0;
             var needed := charged - headroom;
             && (at.None? <==> live == [] || Sum(live) < needed)
             && (at.Some? ==> SumUpTo(live, at.value - limits.windowSeconds as real) >= needed)
             && (at.Some? ==> forall c :: c < at.value - limits.windowSeconds as real
                                          ==> SumUpTo(live, c) < needed || SumUpTo(live, c) == 0)
    ensures FreesExactly(limits, l, clock, charged, at) <==> ReportCovers(limits, l, clock, charged, at)
    ensures Sum(Live(l.entries, EffectiveNow(l.lastTs, clock), limits.windowSeconds)) <= limits.windowLamports
            ==> ReportCovers(limits, l, clock, charged, at)
  {
    assert Sum([]) == 0;
    hide Sum, SumAfter, SumUpTo, After, FreesExactly;
    if ReportCovers(limits, l, clock, charged, at) {
      CoveredIsExact(limits, l, clock, charged, at);
    } else {
      ShortIsNotExact(limits, l, clock, charged, at);
    }
  }

  lemma ShortIsNotExact(limits: Limits, l: Ledger, clock: real, charged: nat, at: Option<real>)
    requires !Fits(limits, l, clock, charged) && !ReportCovers(limits, l, clock, charged, at)
    ensures !FreesExactly(limits, l, clock, charged, at)
  {
    hide Sum, SumAfter, SumUpTo, After;
    var now := EffectiveNow(l.lastTs, clock);
    var t := if at.value > now then at.value else now;
    LaterPrune(limits, l, clock, t);
    LaterPrune(limits, l, clock, now);
    assert !Fits(limits, l, t, charged);
  }

  lemma CoveredIsExact(limits: Limits, l: Ledger, clock: real, charged: nat, at: Option<real>)
    requires !Fits(limits, l, clock, charged) && ReportCovers(limits, l, clock, charged, at)
    requires at.None? ==> charged > limits.windowLamports
    requires var live := Live(l.entries, EffectiveNow(l.lastTs, clock), limits.windowSeconds);
             at.Some? ==> forall c :: c < at.value - limits.windowSeconds as real
                                      ==> SumUpTo(live, c) < Sum(live) + charged - limits.windowLamports || SumUpTo(live, c) == 0
    ensures FreesExactly(limits, l, clock, charged, at)
  {
    hide Sum, SumAfter, SumUpTo, After;
    var now := EffectiveNow(l.lastTs, clock);
    var live := Live(l.entries, now, limits.windowSeconds);
    var w := limits.windowSeconds as real;
    if at.Some? {
      SumUpToBound(live, at.value - w);
    }
    forall t | t >= now
      ensures at.Some? ==> (Fits(limits, l, t, charged) <==> t >= at.value)
      ensures at.None? ==> !Fits(limits, l, t, charged)
    {
      LaterPrune(limits, l, clock, t);
      SumUpToBound(live, t - w);
      if at.Some? && t >= at.value {
        SumUpToMonotone(live, at.value - w, t - w);
      }
    }
  }

  lemma {:induction false} SumUpToMonotone(es: seq<Entry>, a: real, b: real)
    requires a <= b
    ensures SumUpTo(es, a) <= SumUpTo(es, b)
  {
    if es != [] {
      SumUpToMonotone(es[..|es| - 1], a, b);
    }
  }

  /** An example of a report that comes too early: cap 10, live 10 and then 90, asking for 5. The time
      reported is the first entry's expiry, when 90 are still counted. */
  lemma FreesAtTooEarlyOverCap()
    ensures var limits := Limits(10, 10, 100, 0);
            var l := Ledger(2.0, [Entry(1.0, 10, "", ""), Entry(2.0, 90, "", "")]);
            var live := Live(l.entries, EffectiveNow(l.lastTs, 3.0), limits.windowSeconds);
            && Sum(live) > limits.windowLamports
            && live == l.entries
            && SumUpTo(live, 1.0) >= 5 && (forall c :: c < 1.0 ==> SumUpTo(live, c) < 5)
            && !Fits(limits, l, 101.0, 5)
  {
    hide Sum, SumUpTo, SumAfter, After;
    var a, b := Entry(1.0, 10, "", ""), Entry(2.0, 90, "", "");
    PairSums(a, b, -97.0);
    PairSums(a, b, 1.0);
    assert EffectiveNow(2.0, 3.0) == 3.0 && [a] + [b] == [a, b];
    assert Live([a, b], 3.0, 100) == [a, b];
    forall c | c < 1.0 ensures SumUpTo([a, b], c) < 5 {
      PairSums(a, b, c);
    }
    assert Live([a, b], 101.0, 100) == After([a, b], 1.0);
  }

  lemma PairSums(a: Entry, b: Entry, cutoff: real)
    ensures Sum([a, b]) == a.lamports + b.lamports
    ensures After([a, b], cutoff) == (if a.ts > cutoff then [a] else []) + (if b.ts > cutoff then [b] else [])
    ensures SumUpTo([a, b], cutoff)
         == (if a.ts > cutoff then 0 else a.lamports) + (if b.ts > cutoff then 0 else b.lamports)
    ensures Sum(After([a, b], cutoff))
         == (if a.ts > cutoff then a.lamports else 0) + (if b.ts > cutoff then b.lamports else 0)
  {
    assert [a, b][..1] == [a];
    assert [a][..0] == [];
    Single(a, cutoff);
    Single(b, cutoff);
    SumSplits([a], cutoff);
    SumSplits([a, b], cutoff);
    AfterKeepsLater([a, b], cutoff, cutoff);
  }

  /** One step of the scan from the end. */
  lemma FindStep(entries: seq<Entry>, i: nat, path: string, detail: string, charged: int)
    requires i < |entries|
    ensures FindFromEnd(entries[..i + 1], path, detail, charged)
         == if Matches(entries[i], path, detail, charged) then Some(i) else FindFromEnd(entries[..i], path, detail, charged)
  {
    hide Matches;
    assert entries[..i + 1][..i] == entries[..i];
  }

  // ---- the gate ----

  class Guard {
    const limits: Limits
    const str: Coercion
    var file: Stored

    constructor (limits: Limits, str: Coercion, file: Stored)
      ensures this.limits == limits && this.str == str && this.file == file
    {
      this.limits := limits;
      this.str := str;
      this.file := file;
    }

    /** The ledger the file stands for now. */
    ghost function Now(): Result<Ledger, Refusal>
      reads this
    {
      Decode(file, str)
    }

    /** Approves exactly when the limits allow the charge, the lock and the ledger can be used,
        the window has room and the record is written; an approval writes `Recorded` and a
        refusal writes nothing. */
    method Authorize(quoted: int, clock: real, path: string, detail: string, io: Io)
      returns (r: Result<Approval, Refusal>)
      modifies this`file
      ensures r.Success? <==>
                && Charge(limits, quoted).Success? && io.lockOpens && old(Now()).Success?
                && Fits(limits, old(Now()).value, clock, Charge(limits, quoted).value) && io.writes
      ensures r.Success? ==>
                && r.value.charged == Charge(limits, quoted).value
                && quoted <= r.value.charged && limits.floor <= r.value.charged <= limits.maxLamports
                && (r.value.charged == quoted || r.value.charged == limits.floor)
                && r.value.windowSpent
                   == SumAfter(old(Now()).value.entries,
                               (if clock < old(Now()).value.lastTs - 2.0 then old(Now()).value.lastTs else clock)
                               - limits.windowSeconds as real) + r.value.charged
                && r.value.windowSpent + r.value.windowRemaining == limits.windowLamports
                && Now() == Success(Recorded(limits, old(Now()).value, clock, r.value.charged, path, detail))
                && Sum(Now().value.entries) == r.value.windowSpent
      ensures r.Failure? ==> file == old(file)
      ensures r == Failure(Negative) <==> quoted < 0
      ensures r == Failure(SpendingDisabled) <==> quoted >= 0 && (limits.maxLamports == 0 || limits.windowLamports == 0)
      ensures r == Failure(Contradictory) <==>
                quoted >= 0 && limits.maxLamports > 0 && limits.windowLamports > 0 && limits.floor > limits.maxLamports
      ensures r == Failure(OverTransactionCap) <==>
                && quoted > limits.maxLamports > 0 && limits.windowLamports > 0 && limits.floor <= limits.maxLamports
      ensures Charge(limits, quoted).Failure? ==> r == Failure(Charge(limits, quoted).error)
      ensures r.Failure? && Charge(limits, quoted).Success? ==>
                if !io.lockOpens then r.error == LockUnavailable
                else if old(Now()).Failure? then r.error == LedgerUnusable
                else if Fits(limits, old(Now()).value, clock, Charge(limits, quoted).value)
                then r.error == LedgerUnwritable
                else r.error.OverWindowCap?
      ensures r.Failure? && r.error.OverWindowCap? && old(Now()).Success? && Charge(limits, quoted).Success? ==>
                var l, charged := old(Now()).value, Charge(limits, quoted).value;
                && (FreesExactly(limits, l, clock, charged, r.error.freesAt)
                    <==> ReportCovers(limits, l, clock, charged, r.error.freesAt))
                && (Sum(Live(l.entries, EffectiveNow(l.lastTs, clock), limits.windowSeconds)) <= limits.windowLamports
                    ==> ReportCovers(limits, l, clock, charged, r.error.freesAt))
    {
      hide Encode, Sum, SumAfter, SumUpTo, After, Compact, FreesExactly, ReportCovers;
      if quoted < 0 {
        return Failure(Negative);
      }
      if limits.maxLamports == 0 || limits.windowLamports == 0 {
        return Failure(SpendingDisabled);
      }
      if limits.floor > limits.maxLamports {
        return Failure(Contradictory);
      }
      var charged := if quoted > limits.floor then quoted else limits.floor;
      if charged > limits.maxLamports {
        return Failure(OverTransactionCap);
      }
      if !io.lockOpens {
        return Failure(LockUnavailable);
      }
      var data := ReadLedger(file, str);
      if data.Failure? {
        return Failure(LedgerUnusable);
      }
      var now := EffectiveNow(data.value.lastTs, clock);
      var live := Live(data.value.entries, now, limits.windowSeconds);
      var spent := Sum(live);
      if spent + charged > limits.windowLamports {
        var headroom := if limits.windowLamports > spent then limits.windowLamports - spent else 0;
        var at := FreesAt(live, charged - headroom, limits.windowSeconds);
        FreesAtIsExact(limits, data.value, clock, charged, at);
        return Failure(OverWindowCap(at));
      }
      AfterKeepsLater(data.value.entries, now - limits.windowSeconds as real, now);
      live := live + [Entry(now, charged, path, Truncate(detail))];
      if !io.writes {
        return Failure(LedgerUnwritable);
      }
      var after := Ledger(if now > data.value.lastTs then now else data.value.lastTs, Compact(live));
      file := Encode(after);
      LedgerRoundTrip(after, str);
      ClockHeld(limits, data.value, clock, charged, path, detail);
      r := Success(Approval(charged, spent + charged, limits.windowLamports - (spent + charged)));
    }

    /** Gives back the newest entry that carries this path, detail and amount, and nothing else. */
    method Release(detail: string, charged: int, path: string, io: Io)
      modifies this`file
      ensures old(file).Missing? || !io.lockOpens || !io.writes || old(Now()).Failure? ==> file == old(file)
      ensures !old(file).Missing? && io.lockOpens && io.writes && old(Now()).Success? ==>
                Now() == Success(GivenBack(old(Now()).value, path, detail, charged))
    {
      hide Encode, Matches, DropAt, FindFromEnd;
      if file.Missing? || !io.lockOpens {
        return;
      }
      var data := ReadLedger(file, str);
      if data.Failure? {
        return;
      }
      var entries := data.value.entries;
      var i := |entries|;
      assert entries[..i] == entries;
      while i > 0
        invariant 0 <= i <= |entries|
        invariant entries == data.value.entries && file == old(file)
        invariant FindFromEnd(entries, path, detail, charged) == FindFromEnd(entries[..i], path, detail, charged)
      {
        i := i - 1;
        FindStep(entries, i, path, detail, charged);
        if Matches(entries[i], path, detail, charged) {
          entries := DropAt(entries, i);
          if io.writes {
            file := Encode(data.value.(entries := entries));
            LedgerRoundTrip(data.value.(entries := entries), str);
          }
          return;
        }
      }
    }

    /** The unlocked view: what is live in the ledger as it stands, and what is left of the cap. */
    method Status(clock: real) returns (r: Result<(nat, nat), Refusal>)
      ensures r.Success? <==> Now().Success?
      ensures r.Success? ==>
                forall charged: nat :: charged > 0 ==>
                  (Fits(limits, Now().value, clock, charged) <==> charged <= r.value.1)
      ensures r.Success? ==>
                r.value.0 == SumAfter(Now().value.entries,
                                      (if clock < Now().value.lastTs - 2.0 then Now().value.lastTs else clock)
                                      - limits.windowSeconds as real)
    {
      hide Sum, SumAfter, SumUpTo, After;
      var data := ReadLedger(file, str);
      if data.Failure? {
        return Failure(data.error);
      }
      var now := EffectiveNow(data.value.lastTs, clock);
      var spent := Sum(Live(data.value.entries, now, limits.windowSeconds));
      AfterKeepsLater(data.value.entries, now - limits.windowSeconds as real, now);
      r := Success((spent, if limits.windowLamports > spent then limits.windowLamports - spent else 0));
    }
  }
}
