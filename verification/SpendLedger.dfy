/** The rolling-window arithmetic of the spend ledger (src/xete_mcp/spendguard.py):
    pruning, sorting, compaction, and the approve-or-refuse decision, all as values.
    Times are reals; a ledger's `lastTs` is the newest time it has recorded. */
module SpendLedger {
  import opened Wrappers
  import Text

  const MAX_ENTRIES := 2000
  const CLOCK_SLACK := 2.0
  const DETAIL_LIMIT := 200
  const COMPACTED := "(compacted)"

  type Seconds = n: int | n >= 1 witness 1

  datatype Entry = Entry(ts: real, lamports: nat, path: string, detail: string)

  datatype Ledger = Ledger(lastTs: real, entries: seq<Entry>)

  const EMPTY := Ledger(0.0, [])

  datatype Limits = Limits(maxLamports: nat, windowLamports: nat, windowSeconds: Seconds, floor: nat)

  // ---- sums over entries ----

  function Sum(es: seq<Entry>): nat {
    if es == [] then 0 else Sum(es[..|es| - 1]) + es[|es| - 1].lamports
  }

  /** The entries recorded strictly later than `cutoff`, in order. */
  function After(es: seq<Entry>, cutoff: real): seq<Entry> {
    if es == [] then []
    else After(es[..|es| - 1], cutoff) + (if es[|es| - 1].ts > cutoff then [es[|es| - 1]] else [])
  }

  function SumAfter(es: seq<Entry>, cutoff: real): nat {
    if es == [] then 0
    else SumAfter(es[..|es| - 1], cutoff) + (if es[|es| - 1].ts > cutoff then es[|es| - 1].lamports else 0)
  }

  /** The lamports recorded at `cutoff` or earlier: what a prune at `cutoff` lets go. */
  function SumUpTo(es: seq<Entry>, cutoff: real): nat {
    if es == [] then 0
    else SumUpTo(es[..|es| - 1], cutoff) + (if es[|es| - 1].ts > cutoff then 0 else es[|es| - 1].lamports)
  }

  lemma {:induction false} SumSplits(es: seq<Entry>, cutoff: real)
    ensures Sum(es) == SumAfter(es, cutoff) + SumUpTo(es, cutoff)
  {
    if es != [] {
      SumSplits(es[..|es| - 1], cutoff);
    }
  }

  lemma Single(e: Entry, cutoff: real)
    ensures Sum([e]) == e.lamports
    ensures SumAfter([e], cutoff) == if e.ts > cutoff then e.lamports else 0
    ensures After([e], cutoff) == if e.ts > cutoff then [e] else []
  {
    assert [e][..0] == [];
  }

  lemma {:induction false} SumAppend(a: seq<Entry>, b: seq<Entry>, cutoff: real)
    ensures Sum(a + b) == Sum(a) + Sum(b)
    ensures SumAfter(a + b, cutoff) == SumAfter(a, cutoff) + SumAfter(b, cutoff)
    ensures SumUpTo(a + b, cutoff) == SumUpTo(a, cutoff) + SumUpTo(b, cutoff)
  {
    if b == [] {
      assert a + b == a;
    } else {
      assert (a + b)[..|a + b| - 1] == a + b[..|b| - 1];
      SumAppend(a, b[..|b| - 1], cutoff);
    }
  }

  /** Pruning at one cutoff keeps every later sum. */
  lemma {:induction false} AfterKeepsLater(es: seq<Entry>, pruneAt: real, cutoff: real)
    ensures cutoff >= pruneAt ==> SumAfter(After(es, pruneAt), cutoff) == SumAfter(es, cutoff)
    ensures Sum(After(es, pruneAt)) == SumAfter(es, pruneAt)
  {
    if es != [] {
      var init, last := es[..|es| - 1], es[|es| - 1];
      AfterKeepsLater(init, pruneAt, cutoff);
      if last.ts > pruneAt {
        SumAppend(After(init, pruneAt), [last], cutoff);
        assert [last][..0] == [];
      } else {
        assert After(es, pruneAt) == After(init, pruneAt);
      }
    }
  }

  // ---- occurrences ----

  /** How often an entry occurs. */
  function Count(es: seq<Entry>, e: Entry): nat {
    if es == [] then 0 else Count(es[..|es| - 1], e) + (if es[|es| - 1] == e then 1 else 0)
  }

  lemma {:induction false} CountAppend(a: seq<Entry>, b: seq<Entry>, e: Entry)
    ensures Count(a + b, e) == Count(a, e) + Count(b, e)
  {
    if b == [] {
      assert a + b == a;
    } else {
      assert (a + b)[..|a + b| - 1] == a + b[..|b| - 1];
      CountAppend(a, b[..|b| - 1], e);
    }
  }

  lemma CountSingle(x: Entry, e: Entry)
    ensures Count([x], e) == if x == e then 1 else 0
  {
    assert [x][..0] == [];
  }

  lemma {:induction false} CountIsMembership(es: seq<Entry>, e: Entry)
    ensures Count(es, e) > 0 <==> e in es
  {
    if es != [] {
      CountIsMembership(es[..|es| - 1], e);
      assert es == es[..|es| - 1] + [es[|es| - 1]];
    }
  }

  lemma {:induction false} AfterIsPart(es: seq<Entry>, pruneAt: real, e: Entry)
    ensures Count(After(es, pruneAt), e) <= Count(es, e)
  {
    if es != [] {
      var init, last := es[..|es| - 1], es[|es| - 1];
      AfterIsPart(init, pruneAt, e);
      CountAppend(After(init, pruneAt), [last], e);
      CountSingle(last, e);
      if last.ts <= pruneAt {
        assert After(es, pruneAt) == After(init, pruneAt);
      }
    }
  }

  // ---- Python's stable sort by timestamp ----

  function Insert(sorted: seq<Entry>, e: Entry): seq<Entry> {
    if sorted == [] || sorted[|sorted| - 1].ts <= e.ts then sorted + [e]
    else Insert(sorted[..|sorted| - 1], e) + [sorted[|sorted| - 1]]
  }

  function SortByTs(es: seq<Entry>): seq<Entry> {
    if es == [] then [] else Insert(SortByTs(es[..|es| - 1]), es[|es| - 1])
  }

  ghost predicate Ascending(es: seq<Entry>) {
    forall i, j :: 0 <= i < j < |es| ==> es[i].ts <= es[j].ts
  }

  lemma {:induction false} InsertLength(s: seq<Entry>, e: Entry)
    ensures |Insert(s, e)| == |s| + 1
  {
    if s != [] && s[|s| - 1].ts > e.ts {
      InsertLength(s[..|s| - 1], e);
    }
  }

  lemma {:induction false} InsertIsPermutation(s: seq<Entry>, x: Entry, e: Entry)
    ensures Count(Insert(s, x), e) == Count(s, e) + (if x == e then 1 else 0)
  {
    hide Count;
    CountAppend(s, [x], e);
    CountSingle(x, e);
    if s != [] && s[|s| - 1].ts > x.ts {
      var init, last := s[..|s| - 1], s[|s| - 1];
      InsertIsPermutation(init, x, e);
      assert s == init + [last];
      CountAppend(init, [last], e);
      CountAppend(Insert(init, x), [last], e);
    }
  }

  lemma {:induction false} InsertKeepsOrder(s: seq<Entry>, e: Entry)
    requires Ascending(s)
    ensures Ascending(Insert(s, e))
    ensures forall x :: x in Insert(s, e) ==> x in s || x == e
  {
    if s != [] && s[|s| - 1].ts > e.ts {
      var init, last := s[..|s| - 1], s[|s| - 1];
      InsertKeepsOrder(init, e);
      var r := Insert(init, e);
      forall i | 0 <= i < |r| ensures r[i].ts <= last.ts {
        assert r[i] in r;
      }
    }
  }

  lemma {:induction false} InsertKeepsSums(s: seq<Entry>, e: Entry, cutoff: real)
    ensures Sum(Insert(s, e)) == Sum(s) + e.lamports
    ensures SumAfter(Insert(s, e), cutoff) == SumAfter(s + [e], cutoff)
    ensures SumUpTo(Insert(s, e), cutoff) == SumUpTo(s + [e], cutoff)
  {
    hide Sum, SumAfter, SumUpTo;
    SumAppend(s, [e], cutoff);
    Single(e, cutoff);
    if s != [] && s[|s| - 1].ts > e.ts {
      var init, last := s[..|s| - 1], s[|s| - 1];
      InsertKeepsSums(init, e, cutoff);
      SumAppend(init, [e], cutoff);
      SumAppend(Insert(init, e), [last], cutoff);
      SumAppend(init, [last], cutoff);
      assert s == init + [last];
    }
  }

  lemma {:induction false} SortLength(es: seq<Entry>)
    ensures |SortByTs(es)| == |es|
  {
    if es != [] {
      SortLength(es[..|es| - 1]);
      InsertLength(SortByTs(es[..|es| - 1]), es[|es| - 1]);
    }
  }

  /** The sort is an ascending permutation, so every window sum survives it. */
  lemma {:induction false} SortIsPermutation(es: seq<Entry>, e: Entry)
    ensures Count(SortByTs(es), e) == Count(es, e)
  {
    if es != [] {
      SortIsPermutation(es[..|es| - 1], e);
      InsertIsPermutation(SortByTs(es[..|es| - 1]), es[|es| - 1], e);
    }
  }

  lemma {:induction false} SortAscends(es: seq<Entry>)
    ensures Ascending(SortByTs(es))
  {
    if es != [] {
      SortAscends(es[..|es| - 1]);
      InsertKeepsOrder(SortByTs(es[..|es| - 1]), es[|es| - 1]);
    }
  }

  /** The entries recorded at exactly `ts`, in order. */
  function AtTs(es: seq<Entry>, ts: real): seq<Entry> {
    if es == [] then [] else AtTs(es[..|es| - 1], ts) + (if es[|es| - 1].ts == ts then [es[|es| - 1]] else [])
  }

  lemma {:induction false} AtTsAppend(a: seq<Entry>, b: seq<Entry>, ts: real)
    ensures AtTs(a + b, ts) == AtTs(a, ts) + AtTs(b, ts)
  {
    if b == [] {
      assert a + b == a;
    } else {
      assert (a + b)[..|a + b| - 1] == a + b[..|b| - 1];
      AtTsAppend(a, b[..|b| - 1], ts);
    }
  }

  lemma AtTsSingle(e: Entry, ts: real)
    ensures AtTs([e], ts) == if e.ts == ts then [e] else []
  {
    assert [e][..0] == [];
  }

  lemma {:induction false} InsertIsStable(s: seq<Entry>, e: Entry, ts: real)
    ensures AtTs(Insert(s, e), ts) == AtTs(s, ts) + AtTs([e], ts)
  {
    hide AtTs;
    AtTsAppend(s, [e], ts);
    AtTsSingle(e, ts);
    if s != [] && s[|s| - 1].ts > e.ts {
      var init, last := s[..|s| - 1], s[|s| - 1];
      InsertIsStable(init, e, ts);
      assert s == init + [last];
      AtTsAppend(init, [last], ts);
      AtTsAppend(Insert(init, e), [last], ts);
      AtTsSingle(last, ts);
    }
  }

  /** Entries of one time keep their order. With the order and the permutation this leaves one result. */
  lemma {:induction false} SortIsStable(es: seq<Entry>, ts: real)
    ensures AtTs(SortByTs(es), ts) == AtTs(es, ts)
  {
    if es != [] {
      var init, last := es[..|es| - 1], es[|es| - 1];
      SortIsStable(init, ts);
      InsertIsStable(SortByTs(init), last, ts);
      AtTsSingle(last, ts);
    }
  }

  lemma InsertLike(init: seq<Entry>, ordered: seq<Entry>, last: Entry, cutoff: real)
    requires Sum(ordered) == Sum(init)
    requires SumAfter(ordered, cutoff) == SumAfter(init, cutoff) && SumUpTo(ordered, cutoff) == SumUpTo(init, cutoff)
    ensures Sum(Insert(ordered, last)) == Sum(init + [last])
    ensures SumAfter(Insert(ordered, last), cutoff) == SumAfter(init + [last], cutoff)
    ensures SumUpTo(Insert(ordered, last), cutoff) == SumUpTo(init + [last], cutoff)
  {
    hide Sum, SumAfter, SumUpTo, Insert;
    InsertKeepsSums(ordered, last, cutoff);
    SumAppend(ordered, [last], cutoff);
    SumAppend(init, [last], cutoff);
    Single(last, cutoff);
  }

  lemma {:induction false} SortKeepsSums(es: seq<Entry>, cutoff: real)
    ensures Sum(SortByTs(es)) == Sum(es)
    ensures SumAfter(SortByTs(es), cutoff) == SumAfter(es, cutoff)
    ensures SumUpTo(SortByTs(es), cutoff) == SumUpTo(es, cutoff)
  {
    hide Insert, Sum, SumAfter, SumUpTo;
    if es != [] {
      var init, last := es[..|es| - 1], es[|es| - 1];
      SortKeepsSums(init, cutoff);
      InsertLike(init, SortByTs(init), last, cutoff);
      assert es == init + [last];
    }
  }

  // ---- compaction ----

  function MaxTs(es: seq<Entry>): real
    requires es != []
  {
    if |es| == 1 then es[0].ts
    else
      var rest := MaxTs(es[..|es| - 1]);
      if es[|es| - 1].ts > rest then es[|es| - 1].ts else rest
  }

  function Merged(es: seq<Entry>): Entry
    requires es != []
  {
    Entry(MaxTs(es), Sum(es), COMPACTED, Text.Decimal(|es|) + " older entries merged")
  }

  /** At most MAX_ENTRIES entries: the oldest are folded into one. */
  function Compact(es: seq<Entry>): seq<Entry> {
    if |es| <= MAX_ENTRIES then es
    else
      SortLength(es);
      var ordered := SortByTs(es);
      var split := |ordered| - (MAX_ENTRIES - 1);
      [Merged(ordered[..split])] + ordered[split..]
  }

  lemma {:induction false} MaxTsBounds(es: seq<Entry>)
    requires es != []
    ensures forall e :: e in es ==> e.ts <= MaxTs(es)
    ensures exists e :: e in es && e.ts == MaxTs(es)
  {
    var init, last := es[..|es| - 1], es[|es| - 1];
    assert es == init + [last];
    if |es| == 1 {
      assert es[0] in es;
    } else {
      MaxTsBounds(init);
      var w :| w in init && w.ts == MaxTs(init);
      assert w in es && last in es;
    }
  }

  lemma {:induction false} NothingAfter(es: seq<Entry>, cutoff: real)
    requires forall e :: e in es ==> e.ts <= cutoff
    ensures SumAfter(es, cutoff) == 0
  {
    if es != [] {
      var init, last := es[..|es| - 1], es[|es| - 1];
      assert last in es && forall e :: e in init ==> e in es;
      NothingAfter(init, cutoff);
    }
  }

  lemma MergedNeverUnderCounts(es: seq<Entry>, cutoff: real)
    requires es != []
    ensures SumAfter([Merged(es)], cutoff) >= SumAfter(es, cutoff)
    ensures Sum([Merged(es)]) == Sum(es)
  {
    var m := Merged(es);
    hide Sum, SumAfter, SumUpTo;
    Single(m, cutoff);
    SumSplits(es, cutoff);
    if m.ts <= cutoff {
      MaxTsBounds(es);
      NothingAfter(es, cutoff);
    }
  }

  lemma FoldingNeverUnderCounts(es: seq<Entry>, split: nat, cutoff: real)
    requires 0 < split <= |es|
    ensures SumAfter([Merged(es[..split])] + es[split..], cutoff) >= SumAfter(es, cutoff)
    ensures Sum([Merged(es[..split])] + es[split..]) == Sum(es)
  {
    hide Sum, SumAfter, SumUpTo, Merged;
    assert es == es[..split] + es[split..];
    SumAppend(es[..split], es[split..], cutoff);
    MergedNeverUnderCounts(es[..split], cutoff);
    SumAppend([Merged(es[..split])], es[split..], cutoff);
  }

  /** Compaction bounds the file, keeps the total, and for no cutoff counts less than before. */
  lemma CompactNeverUnderCounts(es: seq<Entry>, cutoff: real)
    ensures SumAfter(Compact(es), cutoff) >= SumAfter(es, cutoff)
    ensures Sum(Compact(es)) == Sum(es)
    ensures |Compact(es)| <= MAX_ENTRIES
  {
    hide Sum, SumAfter, SortByTs, Merged;
    if |es| > MAX_ENTRIES {
      SortLength(es);
      SortKeepsSums(es, cutoff);
      FoldingNeverUnderCounts(SortByTs(es), |es| - (MAX_ENTRIES - 1), cutoff);
    }
  }

  lemma FoldingInventsNothing(es: seq<Entry>, split: nat, e: Entry)
    requires 0 < split <= |es| && e.path != COMPACTED
    ensures Count([Merged(es[..split])] + es[split..], e) <= Count(es, e)
  {
    var m, tail := Merged(es[..split]), es[split..];
    assert m != e;
    assert es == es[..split] + tail;
    hide Count, Merged, MaxTs;
    CountAppend([m], tail, e);
    CountSingle(m, e);
    CountAppend(es[..split], tail, e);
  }

  /** Compaction can lose an entry a caller wrote, but never invents one. */
  lemma CompactInventsNothing(es: seq<Entry>, e: Entry)
    requires e.path != COMPACTED
    ensures Count(Compact(es), e) <= Count(es, e)
  {
    hide Count, SortByTs, Merged;
    if |es| > MAX_ENTRIES {
      SortLength(es);
      SortIsPermutation(es, e);
      FoldingInventsNothing(SortByTs(es), |es| - (MAX_ENTRIES - 1), e);
    }
  }

  /** Some of the entries, the oldest, are folded into `merged`: it has their sum and their newest time,
      and carries a label no caller writes. The rest is kept, in order of time. */
  ghost predicate FoldsOldest(es: seq<Entry>, folded: seq<Entry>, merged: Entry, kept: seq<Entry>) {
    && (forall e :: Count(folded, e) + Count(kept, e) == Count(es, e))
    && (forall x, y :: x in folded && y in kept ==> x.ts <= y.ts)
    && Ascending(kept)
    && merged.lamports == Sum(folded) && merged.path == COMPACTED
    && (forall x :: x in folded ==> x.ts <= merged.ts) && (exists x :: x in folded && x.ts == merged.ts)
  }

  lemma SplitOrdered(ordered: seq<Entry>, split: nat)
    requires Ascending(ordered) && split <= |ordered|
    ensures forall x, y :: x in ordered[..split] && y in ordered[split..] ==> x.ts <= y.ts
    ensures Ascending(ordered[split..])
    ensures forall e :: Count(ordered[..split], e) + Count(ordered[split..], e) == Count(ordered, e)
  {
    hide Count;
    forall x, y | x in ordered[..split] && y in ordered[split..] ensures x.ts <= y.ts {
      var i :| 0 <= i < split && ordered[i] == x;
      var j :| split <= j < |ordered| && ordered[j] == y;
    }
    forall e ensures Count(ordered[..split], e) + Count(ordered[split..], e) == Count(ordered, e) {
      assert ordered == ordered[..split] + ordered[split..];
      CountAppend(ordered[..split], ordered[split..], e);
    }
  }

  lemma CompactIsSplit(es: seq<Entry>)
    ensures |es| <= 2000 ==> Compact(es) == es
    ensures |SortByTs(es)| == |es|
    ensures |es| > 2000 ==>
              Compact(es) == [Merged(SortByTs(es)[..|es| - 1999])] + SortByTs(es)[|es| - 1999..]
  {
    SortLength(es);
  }

  lemma MergedIs(folded: seq<Entry>)
    requires folded != []
    ensures var merged := Merged(folded);
            && merged.lamports == Sum(folded) && merged.path == COMPACTED
            && (forall x :: x in folded ==> x.ts <= merged.ts) && (exists x :: x in folded && x.ts == merged.ts)
  {
    MaxTsBounds(folded);
  }

  /** Up to 2000 entries stay as they are. Of more, the newest 1999 stay as they are and all others are
      folded into one. */
  lemma CompactFoldsOldest(es: seq<Entry>) returns (folded: seq<Entry>)
    ensures |es| <= 2000 ==> Compact(es) == es
    ensures |es| > 2000 ==>
              && |Compact(es)| == 2000 && |folded| == |es| - 1999
              && FoldsOldest(es, folded, Compact(es)[0], Compact(es)[1..])
  {
    hide *;
    folded := [];
    CompactIsSplit(es);
    if |es| > 2000 {
      SortAscends(es);
      var ordered, split := SortByTs(es), |es| - 1999;
      folded := ordered[..split];
      SplitOrdered(ordered, split);
      FoldedIs(es, ordered, folded, ordered[split..]);
      assert Compact(es)[1..] == ordered[split..];
    }
  }

  lemma FoldedIs(es: seq<Entry>, ordered: seq<Entry>, folded: seq<Entry>, kept: seq<Entry>)
    requires ordered == SortByTs(es) && folded != []
    requires forall e :: Count(folded, e) + Count(kept, e) == Count(ordered, e)
    requires forall x, y :: x in folded && y in kept ==> x.ts <= y.ts
    requires Ascending(kept)
    ensures FoldsOldest(es, folded, Merged(folded), kept)
  {
    hide Count, SortByTs, Merged, Sum;
    MergedIs(folded);
    forall e ensures Count(folded, e) + Count(kept, e) == Count(es, e) {
      SortIsPermutation(es, e);
    }
  }

  // ---- the decision ----

  /** Wall clock, held at `lastTs` when it has gone back by more than the slack. */
  function EffectiveNow(lastTs: real, clock: real): real {
    if clock < lastTs - CLOCK_SLACK then lastTs else clock
  }

  function Live(es: seq<Entry>, now: real, windowSeconds: Seconds): seq<Entry> {
    After(es, now - windowSeconds as real)
  }

  datatype Refusal =
    | Negative
    | SpendingDisabled
    | Contradictory
    | OverTransactionCap
    | OverWindowCap(freesAt: Option<real>)
    | LockUnavailable
    | LedgerUnusable
    | LedgerUnwritable

  /** What the limits alone say: the amount to charge, or why nothing may be spent. */
  function Charge(limits: Limits, quoted: int): Result<nat, Refusal> {
    if quoted < 0 then Failure(Negative)
    else if limits.maxLamports == 0 || limits.windowLamports == 0 then Failure(SpendingDisabled)
    else if limits.floor > limits.maxLamports then Failure(Contradictory)
    else
      var charged := if quoted > limits.floor then quoted else limits.floor;
      if charged > limits.maxLamports then Failure(OverTransactionCap) else Success(charged)
  }

  /** What the limits let through, and what is charged for it: the larger of quote and floor. */
  lemma ChargeIsExact(limits: Limits, quoted: int, charged: nat)
    ensures Charge(limits, quoted).Success?
       <==> 0 <= quoted <= limits.maxLamports && limits.maxLamports > 0 && limits.windowLamports > 0
            && limits.floor <= limits.maxLamports
    ensures Charge(limits, quoted).Success? ==>
              (Charge(limits, quoted) == Success(charged)
               <==> quoted <= charged && limits.floor <= charged && (charged == quoted || charged == limits.floor))
  {
  }

  function Truncate(detail: string): string {
    if |detail| > DETAIL_LIMIT then detail[..DETAIL_LIMIT] else detail
  }

  /** The window rule: approved exactly when what is live plus the charge fits the cap. */
  predicate Fits(limits: Limits, l: Ledger, clock: real, charged: nat) {
    Sum(Live(l.entries, EffectiveNow(l.lastTs, clock), limits.windowSeconds)) + charged <= limits.windowLamports
  }

  /** The ledger after an approval: pruned, with the new entry, compacted. */
  function Recorded(limits: Limits, l: Ledger, clock: real, charged: nat, path: string, detail: string): Ledger {
    var now := EffectiveNow(l.lastTs, clock);
    Ledger(if now > l.lastTs then now else l.lastTs,
           Compact(Live(l.entries, now, limits.windowSeconds) + [Entry(now, charged, path, Truncate(detail))]))
  }

  /** The window a decision looks at ends at the clock, also when it is up to two seconds behind the newest
      recorded time. A clock further back than that neither frees budget nor dates an entry back: the
      decision is the one at the newest recorded time. */
  lemma ClockHeld(limits: Limits, l: Ledger, clock: real, charged: nat, path: string, detail: string)
    ensures var behind := clock < l.lastTs - 2.0;
            var end := if behind then l.lastTs else clock;
            && (Fits(limits, l, clock, charged)
                <==> SumAfter(l.entries, end - limits.windowSeconds as real) + charged <= limits.windowLamports)
            && (behind ==> Recorded(limits, l, clock, charged, path, detail)
                           == Recorded(limits, l, l.lastTs, charged, path, detail))
            && Sum(Recorded(limits, l, clock, charged, path, detail).entries)
               == SumAfter(l.entries, end - limits.windowSeconds as real) + charged
            && Recorded(limits, l, clock, charged, path, detail).lastTs == if clock > l.lastTs then clock else l.lastTs
  {
    var now := EffectiveNow(l.lastTs, clock);
    var cutoff := now - limits.windowSeconds as real;
    var live, e := After(l.entries, cutoff), Entry(now, charged, path, Truncate(detail));
    hide Sum, SumAfter, After, Compact;
    AfterKeepsLater(l.entries, cutoff, cutoff);
    CompactNeverUnderCounts(live + [e], cutoff);
    SumAppend(live, [e], cutoff);
    Single(e, cutoff);
  }

  // ---- giving a spend back ----

  predicate Matches(e: Entry, path: string, detail: string, charged: int) {
    e.path == path && e.detail == Truncate(detail) && e.lamports == charged
  }

  /** The newest matching entry (scanning from the end), if there is one. */
  function FindFromEnd(es: seq<Entry>, path: string, detail: string, charged: int): (r: Option<nat>)
    ensures r.Some? ==> r.value < |es| && Matches(es[r.value], path, detail, charged)
    ensures r.Some? ==> forall j :: r.value < j < |es| ==> !Matches(es[j], path, detail, charged)
    ensures r.None? ==> forall j :: 0 <= j < |es| ==> !Matches(es[j], path, detail, charged)
  {
    if es == [] then None
    else if Matches(es[|es| - 1], path, detail, charged) then Some(|es| - 1)
    else FindFromEnd(es[..|es| - 1], path, detail, charged)
  }

  function DropAt<T>(s: seq<T>, i: nat): seq<T>
    requires i < |s|
  {
    s[..i] + s[i + 1..]
  }

  function GivenBack(l: Ledger, path: string, detail: string, charged: int): Ledger {
    match FindFromEnd(l.entries, path, detail, charged)
    case None => l
    case Some(i) => l.(entries := DropAt(l.entries, i))
  }

  lemma DropSums(es: seq<Entry>, i: nat, cutoff: real)
    requires i < |es|
    ensures Sum(DropAt(es, i)) == Sum(es) - es[i].lamports
    ensures SumAfter(DropAt(es, i), cutoff)
         == SumAfter(es, cutoff) - if es[i].ts > cutoff then es[i].lamports else 0
  {
    hide Sum, SumAfter, SumUpTo;
    var a, b := es[..i], es[i + 1..];
    assert es == (a + [es[i]]) + b;
    SumAppend(a, b, cutoff);
    SumAppend(a + [es[i]], b, cutoff);
    SumAppend(a, [es[i]], cutoff);
    Single(es[i], cutoff);
  }

  lemma DropCount(es: seq<Entry>, i: nat, e: Entry)
    requires i < |es|
    ensures Count(DropAt(es, i), e) == Count(es, e) - if es[i] == e then 1 else 0
  {
    hide Count;
    var a, b := es[..i], es[i + 1..];
    assert es == (a + [es[i]]) + b;
    CountAppend(a, b, e);
    CountAppend(a + [es[i]], b, e);
    CountAppend(a, [es[i]], e);
    CountSingle(es[i], e);
  }
}
