/** Per-endpoint freshness marks (src/xete_mcp/alias_chain.py): the highest slot each endpoint has
    answered at, the floor sent to it and the ceiling its next answer is held to. */
module Freshness {
  import opened Wrappers

  const MAX_MARKS := 64
  const SLOTS_PER_SECOND := 5
  const GENESIS := 1_584_316_800.0

  datatype Mark = Mark(slot: nat, at: real)

  /** A dictionary that remembers the order its keys were inserted in. */
  datatype Marks = Marks(order: seq<string>, seen: map<string, Mark>)

  const NO_MARKS := Marks([], map[])

  function MarkOf(m: Marks, key: string): Option<Mark> {
    if key in m.seen then Some(m.seen[key]) else None
  }

  ghost predicate Distinct(ks: seq<string>) {
    forall i, j :: 0 <= i < j < |ks| ==> ks[i] != ks[j]
  }

  ghost predicate Valid(m: Marks) {
    Distinct(m.order) && (forall k :: k in m.order <==> k in m.seen) && |m.order| == |m.seen|
  }

  function Without(ks: seq<string>, key: string): seq<string> {
    if ks == [] then []
    else Without(ks[..|ks| - 1], key) + (if ks[|ks| - 1] == key then [] else [ks[|ks| - 1]])
  }

  /** `dict.pop(key, None)`. */
  function Forget(m: Marks, key: string): Marks {
    Marks(Without(m.order, key), m.seen - {key})
  }

  function Floor(tolerance: nat, m: Marks, key: string): Option<nat> {
    if tolerance == 0 || key !in m.seen || m.seen[key].slot <= tolerance then None
    else Some(m.seen[key].slot - tolerance)
  }

  /** The slots a chain can have produced since, with the fraction cut off. */
  function Elapsed(since: real, now: real): nat {
    if now <= since then 0 else ((now - since) * SLOTS_PER_SECOND as real).Floor
  }

  function Ceiling(tolerance: nat, m: Marks, key: string, now: real): nat {
    var base := if key in m.seen then m.seen[key] else Mark(0, GENESIS);
    base.slot + Elapsed(base.at, now) + tolerance
  }

  function MakeRoom(m: Marks, key: string): Marks {
    if |m.seen| >= MAX_MARKS && key !in m.seen && m.order != [] then Forget(m, m.order[0]) else m
  }

  function Raise(m: Marks, key: string, slot: nat, now: real): Marks {
    if key !in m.seen then Marks(m.order + [key], m.seen[key := Mark(slot, now)])
    else if slot > m.seen[key].slot then m.(seen := m.seen[key := Mark(slot, now)])
    else m
  }

  function Record(tolerance: nat, m: Marks, key: string, slot: nat, now: real): (Marks, bool) {
    if slot > Ceiling(tolerance, m, key, now) then (m, false)
    else (Raise(MakeRoom(m, key), key, slot, now), true)
  }

  /** The process-wide memory, changed in place. */
  class SlotMemory {
    const tolerance: nat
    var order: seq<string>
    var seen: map<string, Mark>

    ghost function Contents(): Marks
      reads this
    {
      Marks(order, seen)
    }

    constructor (tolerance: nat)
      ensures this.tolerance == tolerance && Contents() == NO_MARKS
    {
      this.tolerance := tolerance;
      order, seen := [], map[];
    }

    method RecordSlot(key: string, slot: nat, now: real) returns (ok: bool)
      requires Valid(Contents())
      modifies this
      ensures (Contents(), ok) == Record(tolerance, old(Contents()), key, slot, now)
      ensures Valid(Contents()) && (|old(seen)| <= MAX_MARKS ==> |seen| <= MAX_MARKS)
    {
      RecordKeepsValid(tolerance, Contents(), key, slot, now);
      if slot > Ceiling(tolerance, Marks(order, seen), key, now) {
        return false;
      }
      if |seen| >= MAX_MARKS && key !in seen {
        order, seen := Without(order, order[0]), seen - {order[0]};
      }
      if key !in seen {
        order, seen := order + [key], seen[key := Mark(slot, now)];
      } else if slot > seen[key].slot {
        seen := seen[key := Mark(slot, now)];
      }
      return true;
    }

    method ForgetSlot(key: string)
      requires Valid(Contents())
      modifies this
      ensures Contents() == Forget(old(Contents()), key) && Valid(Contents())
    {
      ForgetKeepsValid(Contents(), key);
      order, seen := Without(order, key), seen - {key};
    }
  }

  lemma {:induction false} WithoutDrops(ks: seq<string>, key: string)
    requires Distinct(ks)
    ensures Distinct(Without(ks, key))
    ensures forall k :: k in Without(ks, key) <==> k in ks && k != key
    ensures |Without(ks, key)| == |ks| - (if key in ks then 1 else 0)
  {
    if ks != [] {
      var front, last := ks[..|ks| - 1], ks[|ks| - 1];
      WithoutDrops(front, key);
      assert ks == front + [last];
      assert last !in front;
    }
  }

  lemma SmallerDomain(seen: map<string, Mark>, key: string)
    ensures |seen - {key}| == |seen| - (if key in seen then 1 else 0)
  {
    var rest := seen - {key};
    if key in seen {
      assert seen.Keys == rest.Keys + {key};
    } else {
      assert rest == seen;
    }
  }

  lemma ForgetKeepsValid(m: Marks, key: string)
    requires Valid(m)
    ensures Valid(Forget(m, key)) && |Forget(m, key).seen| == |m.seen| - (if key in m.seen then 1 else 0)
  {
    hide Without, Distinct;
    WithoutDrops(m.order, key);
    SmallerDomain(m.seen, key);
    var f := Forget(m, key);
    forall k ensures k in f.order <==> k in f.seen {
      assert k in f.seen <==> k in m.seen && k != key;
    }
  }

  lemma RaiseKeepsValid(m: Marks, key: string, slot: nat, now: real)
    requires Valid(m)
    ensures Valid(Raise(m, key, slot, now))
    ensures |Raise(m, key, slot, now).seen| == |m.seen| + (if key in m.seen then 0 else 1)
  {
    var r := Raise(m, key, slot, now);
    if key in m.seen {
      assert r.seen.Keys == m.seen.Keys && r.order == m.order;
    } else {
      assert r.seen.Keys == m.seen.Keys + {key};
      assert key !in m.order && r.order == m.order + [key];
    }
  }

  /** Recording keeps the table consistent and never makes it larger than its bound. */
  lemma RecordKeepsValid(tolerance: nat, m: Marks, key: string, slot: nat, now: real)
    requires Valid(m)
    ensures Valid(MakeRoom(m, key)) && (|m.seen| >= MAX_MARKS && key !in m.seen ==> m.order != [])
    ensures Valid(Record(tolerance, m, key, slot, now).0)
    ensures |m.seen| <= MAX_MARKS ==> |Record(tolerance, m, key, slot, now).0.seen| <= MAX_MARKS
  {
    if m.order != [] {
      ForgetKeepsValid(m, m.order[0]);
      assert m.order[0] in m.order;
    }
    RaiseKeepsValid(MakeRoom(m, key), key, slot, now);
  }

  // ---- one resolution ----

  /** What comes back: a result that names a slot or does not, the refusal that says the floor cannot be
      reached, or any other failure. */
  datatype Reply = AtSlot(slot: nat) | NoSlot | BelowFloor | Failed

  datatype Outcome = Answered(slot: Option<nat>) | Behind(floor: nat) | Unread

  datatype Call = Call(key: string, now: real, reply: Reply)

  function Resolve(tolerance: nat, m: Marks, c: Call): (Marks, Outcome) {
    match c.reply
    case AtSlot(slot) =>
      var (next, ok) := Record(tolerance, m, c.key, slot, c.now);
      (next, Answered(if ok then Some(slot) else None))
    case NoSlot => (m, Answered(None))
    case BelowFloor =>
      if Floor(tolerance, m, c.key).Some? then (Forget(m, c.key), Behind(Floor(tolerance, m, c.key).value))
      else (m, Unread)
    case Failed => (m, Unread)
  }

  function Run(tolerance: nat, m: Marks, calls: seq<Call>): Marks {
    if calls == [] then m else Resolve(tolerance, Run(tolerance, m, calls[..|calls| - 1]), calls[|calls| - 1]).0
  }

  /** The table never outgrows its bound, whatever the endpoints answer. */
  lemma {:induction false} RunStaysBounded(tolerance: nat, m: Marks, calls: seq<Call>)
    requires Valid(m) && |m.seen| <= MAX_MARKS
    ensures Valid(Run(tolerance, m, calls)) && |Run(tolerance, m, calls).seen| <= MAX_MARKS
  {
    if calls != [] {
      var front, c := calls[..|calls| - 1], calls[|calls| - 1];
      RunStaysBounded(tolerance, m, front);
      var before := Run(tolerance, m, front);
      hide Record, Valid, Forget;
      match c.reply {
        case AtSlot(slot) => RecordKeepsValid(tolerance, before, c.key, slot, c.now);
        case BelowFloor => ForgetKeepsValid(before, c.key);
        case _ =>
      }
    }
  }

  // ---- who can change a mark ----

  /** Another endpoint's answer leaves a mark alone or evicts it, so it can remove a floor and never
      raise or introduce one. */
  lemma OthersOnlyRemove(tolerance: nat, m: Marks, c: Call, key: string)
    requires c.key != key
    ensures var next := Resolve(tolerance, m, c).0;
            && (MarkOf(next, key) == MarkOf(m, key) || MarkOf(next, key) == None)
            && (Floor(tolerance, next, key) == Floor(tolerance, m, key) || Floor(tolerance, next, key) == None)
  {
  }

  /** An endpoint's own answer raises its mark, leaves it alone, or, after a refusal of the floor it
      was sent, removes it. A raise stays under the ceiling and is stamped with the call's time. */
  lemma OwnAnswerRaises(tolerance: nat, m: Marks, c: Call)
    ensures var (next, outcome) := Resolve(tolerance, m, c);
            match (MarkOf(m, c.key), MarkOf(next, c.key))
            case (Some(a), Some(b)) =>
              b == a || (a.slot < b.slot <= Ceiling(tolerance, m, c.key, c.now) && b.at == c.now
                         && outcome == Answered(Some(b.slot)))
            case (None, Some(b)) =>
              b.slot <= Ceiling(tolerance, m, c.key, c.now) && b.at == c.now && outcome == Answered(Some(b.slot))
            case (Some(a), None) => outcome == Behind(a.slot - tolerance)
            case (None, None) => !outcome.Behind?
  {
  }

  /** Between forgets and evictions a mark only rises: as long as the key stays in the table, its slot
      never goes down over any run. */
  lemma {:induction false} MarkIsMonotone(tolerance: nat, m: Marks, calls: seq<Call>, key: string)
    requires forall n :: 0 <= n <= |calls| ==> key in Run(tolerance, m, calls[..n]).seen
    ensures key in m.seen && key in Run(tolerance, m, calls).seen
    ensures m.seen[key].slot <= Run(tolerance, m, calls).seen[key].slot
  {
    assert calls[..0] == [] && calls[..|calls|] == calls;
    if calls != [] {
      var front := calls[..|calls| - 1];
      forall n | 0 <= n <= |front| ensures key in Run(tolerance, m, front[..n]).seen {
        assert front[..n] == calls[..n];
      }
      MarkIsMonotone(tolerance, m, front, key);
      OwnAnswerRaises(tolerance, Run(tolerance, m, front), calls[|calls| - 1]);
    }
  }

  /** The floor sent to an endpoint lies exactly the tolerance below the highest slot it has answered at;
      none is sent where that would not be positive, or where no lag is to be checked. */
  lemma FloorIff(tolerance: nat, m: Marks, key: string, floor: nat)
    ensures Floor(tolerance, m, key) == Some(floor)
       <==> tolerance > 0 && floor > 0 && key in m.seen && floor + tolerance == m.seen[key].slot
  {
  }

  /** A noticed regression does not latch: once a floor has been refused, no floor is sent to that
      endpoint until it has again answered at a slot. */
  lemma {:induction false} NoFloorAfterBehind(tolerance: nat, m: Marks, c: Call, later: seq<Call>)
    requires Resolve(tolerance, m, c).1.Behind?
    requires forall i :: 0 <= i < |later| ==> later[i].key != c.key || !later[i].reply.AtSlot?
    ensures MarkOf(Run(tolerance, Resolve(tolerance, m, c).0, later), c.key) == None
    ensures Floor(tolerance, Run(tolerance, Resolve(tolerance, m, c).0, later), c.key) == None
  {
    if later != [] {
      NoFloorAfterBehind(tolerance, m, c, later[..|later| - 1]);
    }
  }

  // ---- honest endpoints ----

  /** A chain as an honest endpoint sees it: it starts at genesis, never goes back, and makes at most
      five slots a second. */
  ghost predicate HonestChain(slotAt: real -> nat) {
    && (forall t :: t >= GENESIS ==> slotAt(t) as real <= (t - GENESIS) * 5.0)
    && (forall s, t :: GENESIS <= s <= t ==> slotAt(s) <= slotAt(t) && (slotAt(t) - slotAt(s)) as real <= (t - s) * 5.0)
  }

  /** What an honest endpoint replies when the chain is at `slot` and it was sent this floor. */
  function HonestReply(floor: Option<nat>, slot: nat): Reply {
    if floor.Some? && slot < floor.value then BelowFloor else AtSlot(slot)
  }

  /** In this run the calls to `key` go to an honest endpoint, at times that do not step back. All the
      other endpoints answer as they like. */
  ghost predicate HonestRun(tolerance: nat, calls: seq<Call>, key: string, slotAt: real -> nat) {
    && (forall i :: 0 <= i < |calls| && calls[i].key == key ==>
          && calls[i].now >= GENESIS
          && calls[i].reply == HonestReply(Floor(tolerance, Run(tolerance, NO_MARKS, calls[..i]), key), slotAt(calls[i].now)))
    && (forall i, j :: 0 <= i < j < |calls| && calls[i].key == key && calls[j].key == key ==> calls[i].now <= calls[j].now)
  }

  ghost predicate MarkIsHonest(m: Marks, key: string, slotAt: real -> nat, now: real) {
    key in m.seen ==> GENESIS <= m.seen[key].at <= now && m.seen[key].slot == slotAt(m.seen[key].at)
  }

  lemma FloorOfWhole(n: int, x: real)
    requires n as real <= x
    ensures n <= x.Floor
  {
  }

  /** One call to an honest endpoint whose mark is honest: it is answered, recorded and stays honest. */
  lemma HonestStep(tolerance: nat, m: Marks, key: string, slotAt: real -> nat, now: real)
    requires HonestChain(slotAt) && now >= GENESIS && MarkIsHonest(m, key, slotAt, now)
    ensures var c := Call(key, now, HonestReply(Floor(tolerance, m, key), slotAt(now)));
            && Resolve(tolerance, m, c).1 == Answered(Some(slotAt(now)))
            && MarkIsHonest(Resolve(tolerance, m, c).0, key, slotAt, now)
  {
    var base := if key in m.seen then m.seen[key] else Mark(0, GENESIS);
    assert slotAt(base.at) <= slotAt(now);
    if now > base.at {
      FloorOfWhole(slotAt(now) - base.slot, (now - base.at) * SLOTS_PER_SECOND as real);
    }
    assert slotAt(now) <= Ceiling(tolerance, m, key, now);
  }

  /** An honest endpoint is always recorded and never refused, in every run and whatever all the other
      endpoints answer, at every one of its calls. */
  lemma {:induction false} HonestIsServed(tolerance: nat, calls: seq<Call>, key: string, slotAt: real -> nat, now: real)
    requires HonestChain(slotAt) && HonestRun(tolerance, calls, key, slotAt)
    requires forall i :: 0 <= i < |calls| && calls[i].key == key ==> calls[i].now <= now
    ensures MarkIsHonest(Run(tolerance, NO_MARKS, calls), key, slotAt, now)
    ensures forall i :: 0 <= i < |calls| && calls[i].key == key ==>
              Resolve(tolerance, Run(tolerance, NO_MARKS, calls[..i]), calls[i]).1 == Answered(Some(slotAt(calls[i].now)))
  {
    hide Resolve, Floor;
    if calls != [] {
      var front, c := calls[..|calls| - 1], calls[|calls| - 1];
      var m := Run(tolerance, NO_MARKS, front);
      assert forall i :: 0 <= i < |front| ==> front[..i] == calls[..i];
      HonestIsServed(tolerance, front, key, slotAt, if c.key == key then c.now else now);
      if c.key == key {
        HonestStep(tolerance, m, key, slotAt, c.now);
      } else {
        OthersOnlyRemove(tolerance, m, c, key);
      }
    }
  }

  // ---- how far a lying endpoint can push its own mark ----

  function CallsTo(calls: seq<Call>, key: string): nat {
    if calls == [] then 0 else CallsTo(calls[..|calls| - 1], key) + (if calls[|calls| - 1].key == key then 1 else 0)
  }

  lemma ElapsedAdds(a: real, b: real, c: real)
    requires a <= b <= c
    ensures Elapsed(a, b) + Elapsed(b, c) <= Elapsed(a, c)
  {
    var x, y := (b - a) * 5.0, (c - b) * 5.0;
    assert (c - a) * 5.0 == x + y;
    FloorOfWhole(x.Floor + y.Floor, x + y);
  }

  /** The mark lies above the fastest chain by at most `slack`. */
  ghost predicate Within(m: Marks, key: string, now: real, slack: nat) {
    key in m.seen ==> GENESIS <= m.seen[key].at <= now && m.seen[key].slot <= Elapsed(GENESIS, m.seen[key].at) + slack
  }

  lemma OwnCallWithin(tolerance: nat, m: Marks, c: Call, slack: nat)
    requires c.now >= GENESIS && Within(m, c.key, c.now, slack)
    ensures Within(Resolve(tolerance, m, c).0, c.key, c.now, slack + tolerance)
  {
    OwnAnswerRaises(tolerance, m, c);
    if c.key in m.seen {
      ElapsedAdds(GENESIS, m.seen[c.key].at, c.now);
    }
    hide Elapsed, Resolve;
  }

  lemma OtherCallWithin(tolerance: nat, m: Marks, c: Call, key: string, now: real, slack: nat)
    requires c.key != key && Within(m, key, now, slack)
    ensures Within(Resolve(tolerance, m, c).0, key, now, slack)
  {
    OthersOnlyRemove(tolerance, m, c, key);
    hide Elapsed, Resolve;
  }

  lemma WithinLater(m: Marks, key: string, early: real, late: real, slack: nat)
    requires Within(m, key, early, slack) && early <= late
    ensures Within(m, key, late, slack)
  {
  }

  /** One tolerance for each call to `key`. */
  function Slack(tolerance: nat, calls: seq<Call>, key: string): nat {
    if calls == [] then 0
    else Slack(tolerance, calls[..|calls| - 1], key) + (if calls[|calls| - 1].key == key then tolerance else 0)
  }

  lemma {:induction false} SlackIsProduct(tolerance: nat, calls: seq<Call>, key: string)
    ensures Slack(tolerance, calls, key) == CallsTo(calls, key) * tolerance
  {
    if calls != [] {
      SlackIsProduct(tolerance, calls[..|calls| - 1], key);
    }
  }

  ghost predicate SteadyFor(calls: seq<Call>, key: string, now: real) {
    && now >= GENESIS
    && (forall i :: 0 <= i < |calls| && calls[i].key == key ==> GENESIS <= calls[i].now <= now)
    && (forall i, j :: 0 <= i < j < |calls| && calls[i].key == key && calls[j].key == key ==> calls[i].now <= calls[j].now)
  }

  lemma SteadyFront(calls: seq<Call>, key: string, now: real)
    requires SteadyFor(calls, key, now) && calls != []
    ensures var c := calls[|calls| - 1];
            && SteadyFor(calls[..|calls| - 1], key, if c.key == key then c.now else now)
            && (c.key == key ==> GENESIS <= c.now <= now)
  {
  }

  lemma {:induction false} MarkWithinSlack(tolerance: nat, calls: seq<Call>, key: string, now: real)
    requires SteadyFor(calls, key, now)
    ensures Within(Run(tolerance, NO_MARKS, calls), key, now, Slack(tolerance, calls, key))
  {
    if calls != [] {
      hide Elapsed, Resolve, Within, SteadyFor;
      var front, c := calls[..|calls| - 1], calls[|calls| - 1];
      var m, slack := Run(tolerance, NO_MARKS, front), Slack(tolerance, front, key);
      SteadyFront(calls, key, now);
      MarkWithinSlack(tolerance, front, key, if c.key == key then c.now else now);
      if c.key == key {
        OwnCallWithin(tolerance, m, c, slack);
        WithinLater(Run(tolerance, NO_MARKS, calls), key, c.now, now, slack + tolerance);
      } else {
        OtherCallWithin(tolerance, m, c, key, now, slack);
      }
    }
  }

  /** A mark never lies above the fastest chain by more than one tolerance for each call made to that
      endpoint at steady times, whatever it answered. */
  lemma MarkIsBounded(tolerance: nat, calls: seq<Call>, key: string, now: real)
    requires SteadyFor(calls, key, now)
    ensures Within(Run(tolerance, NO_MARKS, calls), key, now, CallsTo(calls, key) * tolerance)
  {
    MarkWithinSlack(tolerance, calls, key, now);
    SlackIsProduct(tolerance, calls, key);
  }

  /** `n` answers at one instant, each at the ceiling of its moment. */
  function Creep(tolerance: nat, key: string, now: real, n: nat): seq<Call> {
    if n == 0 then []
    else
      var before := Creep(tolerance, key, now, n - 1);
      before + [Call(key, now, AtSlot(Ceiling(tolerance, Run(tolerance, NO_MARKS, before), key, now)))]
  }

  lemma CreepStep(tolerance: nat, m: Marks, key: string, now: real)
    requires now >= GENESIS && tolerance > 0 && (key in m.seen ==> m.seen[key].at == now)
    ensures var base := if key in m.seen then m.seen[key].slot else Elapsed(GENESIS, now);
            var c := Call(key, now, AtSlot(Ceiling(tolerance, m, key, now)));
            MarkOf(Resolve(tolerance, m, c).0, key) == Some(Mark(base + tolerance, now))
  {
    assert Elapsed(now, now) == 0;
    hide Elapsed;
  }

  lemma {:induction false} CreepSlack(tolerance: nat, key: string, now: real, n: nat)
    requires now >= GENESIS && n > 0 && tolerance > 0
    ensures CallsTo(Creep(tolerance, key, now, n), key) == n
    ensures MarkOf(Run(tolerance, NO_MARKS, Creep(tolerance, key, now, n)), key)
         == Some(Mark(Elapsed(GENESIS, now) + Slack(tolerance, Creep(tolerance, key, now, n), key), now))
  {
    hide Resolve, Elapsed, Ceiling;
    var before, calls := Creep(tolerance, key, now, n - 1), Creep(tolerance, key, now, n);
    assert calls[..|calls| - 1] == before;
    if n > 1 {
      CreepSlack(tolerance, key, now, n - 1);
    }
    CreepStep(tolerance, Run(tolerance, NO_MARKS, before), key, now);
  }

  /** The bound is reached: an endpoint that answers at its ceiling every time gains one tolerance per
      call even while no time passes. */
  lemma CreepReachesTheBound(tolerance: nat, key: string, now: real, n: nat)
    requires now >= GENESIS && n > 0 && tolerance > 0
    ensures CallsTo(Creep(tolerance, key, now, n), key) == n
    ensures MarkOf(Run(tolerance, NO_MARKS, Creep(tolerance, key, now, n)), key)
         == Some(Mark(Elapsed(GENESIS, now) + n * tolerance, now))
  {
    CreepSlack(tolerance, key, now, n);
    SlackIsProduct(tolerance, Creep(tolerance, key, now, n), key);
  }
}
