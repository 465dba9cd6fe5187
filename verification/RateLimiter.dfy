/** The sliding-window limiter of outgoing replies (agent_runtime.py `RateLimiter`): trimmed queues of
    send times, against a specification that remembers every send. */
module RateLimiter {
  import opened Wrappers

  datatype Caps = Caps(perSender: int, globalMax: int, window: real)

  datatype Answer = Allowed | GlobalLimit | SenderLimit

  // ---- the queues ----

  datatype State = State(glob: seq<real>, bySender: map<string, seq<real>>)

  const FRESH := State([], map[])

  function Queue(st: State, sender: string): seq<real> {
    if sender in st.bySender then st.bySender[sender] else []
  }

  /** Drops times from the front while they are before `cutoff`. */
  function Trim(ts: seq<real>, cutoff: real): seq<real> {
    if ts == [] || ts[0] >= cutoff then ts else Trim(ts[1..], cutoff)
  }

  function Check(caps: Caps, st: State, sender: string, now: real): (State, Answer) {
    var glob := Trim(st.glob, now - caps.window);
    var own := Trim(Queue(st, sender), now - caps.window);
    if |glob| >= caps.globalMax then (st.(glob := glob), GlobalLimit)
    else if |own| >= caps.perSender then (State(glob, st.bySender[sender := own]), SenderLimit)
    else (State(glob + [now], st.bySender[sender := own + [now]]), Allowed)
  }

  function Prune(st: State): State {
    st.(bySender := map s | s in st.bySender && st.bySender[s] != [] :: st.bySender[s])
  }

  /** The limiter as it runs: two loops that pop from the front, and queues that grow at the back. */
  class Limiter {
    const caps: Caps
    var glob: seq<real>
    var bySender: map<string, seq<real>>

    ghost function Contents(): State
      reads this
    {
      State(glob, bySender)
    }

    constructor (caps: Caps)
      ensures this.caps == caps && Contents() == FRESH
    {
      this.caps := caps;
      glob := [];
      bySender := map[];
    }

    method CheckAndRecord(sender: string, now: real) returns (answer: Answer)
      modifies this
      ensures (Contents(), answer) == Check(caps, old(Contents()), sender, now)
    {
      while glob != [] && now - glob[0] > caps.window
        invariant Trim(glob, now - caps.window) == Trim(old(glob), now - caps.window)
        invariant bySender == old(bySender)
        decreases |glob|
      {
        glob := glob[1..];
      }
      if |glob| >= caps.globalMax {
        return GlobalLimit;
      }
      var own := if sender in bySender then bySender[sender] else [];
      while own != [] && now - own[0] > caps.window
        invariant Trim(own, now - caps.window) == Trim(Queue(old(Contents()), sender), now - caps.window)
        decreases |own|
      {
        own := own[1..];
      }
      if |own| >= caps.perSender {
        bySender := bySender[sender := own];
        return SenderLimit;
      }
      glob := glob + [now];
      bySender := bySender[sender := own + [now]];
      return Allowed;
    }

    /** Drops the names of the empty queues: afterwards none is empty, and every queue holds what it held. */
    method PruneEmpty()
      modifies this`bySender
      ensures forall s :: s in bySender ==> bySender[s] != []
      ensures forall s :: Queue(Contents(), s) == Queue(old(Contents()), s)
      ensures Contents() == Prune(old(Contents()))
    {
      var empty := set s | s in bySender && bySender[s] == [];
      ghost var was := bySender;
      while empty != {}
        invariant forall s :: s in bySender ==> s in was && bySender[s] == was[s]
        invariant forall s :: s in was && s !in bySender ==> was[s] == []
        invariant forall s :: s in bySender && bySender[s] == [] ==> s in empty
        decreases |empty|
      {
        var s :| s in empty;
        if s in bySender && bySender[s] == [] {
          bySender := bySender - {s};
        }
        empty := empty - {s};
      }
    }
  }

  // ---- the specification: every send ever made ----

  datatype Sent = Sent(sender: string, at: real)

  /** `who` is one sender, or everybody. */
  predicate By(s: Sent, who: Option<string>) {
    who.Some? ==> s.sender == who.value
  }

  function SendsIn(h: seq<Sent>, who: Option<string>, lo: real, hi: real): nat {
    if h == [] then 0
    else
      var last := h[|h| - 1];
      SendsIn(h[..|h| - 1], who, lo, hi) + (if By(last, who) && lo <= last.at <= hi then 1 else 0)
  }

  /** The promise: at most so many sends in the closed window that ends now, counted over the whole
      history, the global limit first. */
  function Promised(caps: Caps, h: seq<Sent>, sender: string, now: real): Answer {
    if SendsIn(h, None, now - caps.window, now) >= caps.globalMax then GlobalLimit
    else if SendsIn(h, Some(sender), now - caps.window, now) >= caps.perSender then SenderLimit
    else Allowed
  }

  datatype Event = Asked(sender: string, now: real) | Pruned

  function Remember(caps: Caps, h: seq<Sent>, ev: Event): seq<Sent> {
    if ev.Asked? && Promised(caps, h, ev.sender, ev.now) == Allowed then h + [Sent(ev.sender, ev.now)] else h
  }

  function History(caps: Caps, evs: seq<Event>): seq<Sent> {
    if evs == [] then [] else Remember(caps, History(caps, evs[..|evs| - 1]), evs[|evs| - 1])
  }

  function Step(caps: Caps, st: State, ev: Event): State {
    match ev
    case Asked(sender, now) => Check(caps, st, sender, now).0
    case Pruned => Prune(st)
  }

  function Run(caps: Caps, evs: seq<Event>): State {
    if evs == [] then FRESH else Step(caps, Run(caps, evs[..|evs| - 1]), evs[|evs| - 1])
  }

  /** The clock never steps back between two questions. */
  predicate Steady(evs: seq<Event>) {
    forall i, j :: 0 <= i < j < |evs| && evs[i].Asked? && evs[j].Asked? ==> evs[i].now <= evs[j].now
  }

  predicate NotAfter(evs: seq<Event>, now: real) {
    forall i :: 0 <= i < |evs| && evs[i].Asked? ==> evs[i].now <= now
  }

  // ---- queues against history ----

  function TimesOf(h: seq<Sent>, who: Option<string>): seq<real> {
    if h == [] then []
    else TimesOf(h[..|h| - 1], who) + (if By(h[|h| - 1], who) then [h[|h| - 1].at] else [])
  }

  lemma {:induction false} TrimFurther(ts: seq<real>, early: real, late: real)
    requires early <= late
    ensures Trim(Trim(ts, early), late) == Trim(ts, late)
  {
    if ts != [] && ts[0] < early {
      TrimFurther(ts[1..], early, late);
    }
  }

  lemma {:induction false} TrimAppend(ts: seq<real>, x: real, cutoff: real)
    ensures Trim(ts + [x], cutoff) == if Trim(ts, cutoff) == [] then Trim([x], cutoff) else Trim(ts, cutoff) + [x]
  {
    if ts == [] {
      assert ts + [x] == [x];
    } else if ts[0] < cutoff {
      assert (ts + [x])[1..] == ts[1..] + [x];
      TrimAppend(ts[1..], x, cutoff);
    }
  }

  ghost predicate Ascending(h: seq<Sent>) {
    forall i, j :: 0 <= i < j < |h| ==> h[i].at <= h[j].at
  }

  ghost predicate Until(h: seq<Sent>, now: real) {
    forall i :: 0 <= i < |h| ==> h[i].at <= now
  }

  lemma {:induction false} TimesBounded(h: seq<Sent>, who: Option<string>, now: real)
    requires Until(h, now)
    ensures forall i :: 0 <= i < |TimesOf(h, who)| ==> TimesOf(h, who)[i] <= now
  {
    if h != [] {
      TimesBounded(h[..|h| - 1], who, now);
    }
  }

  /** For an ascending history the trimmed queue holds exactly the sends of the window that ends now. */
  lemma {:induction false} TrimCounts(h: seq<Sent>, who: Option<string>, cutoff: real, now: real)
    requires Ascending(h) && Until(h, now)
    ensures |Trim(TimesOf(h, who), cutoff)| == SendsIn(h, who, cutoff, now)
  {
    if h != [] {
      var front, last := h[..|h| - 1], h[|h| - 1];
      TrimCounts(front, who, cutoff, now);
      assert TimesOf(front, who) + [] == TimesOf(front, who);
      if By(last, who) {
        TrimAppend(TimesOf(front, who), last.at, cutoff);
        if last.at < cutoff {
          TimesBounded(front, who, last.at);
          AllTrimmed(TimesOf(front, who), cutoff);
        }
      }
    }
  }

  lemma {:induction false} AllTrimmed(ts: seq<real>, cutoff: real)
    requires forall i :: 0 <= i < |ts| ==> ts[i] < cutoff
    ensures Trim(ts, cutoff) == []
  {
    if ts != [] {
      AllTrimmed(ts[1..], cutoff);
    }
  }

  /** A queue that agrees with the history on everything a cutoff from here on can see. */
  ghost predicate Agrees(ts: seq<real>, h: seq<Sent>, who: Option<string>, cutoff: real) {
    forall c :: c >= cutoff ==> Trim(ts, c) == Trim(TimesOf(h, who), c)
  }

  ghost predicate Represents(st: State, h: seq<Sent>, cutoff: real) {
    && Agrees(st.glob, h, None, cutoff)
    && forall s :: Agrees(Queue(st, s), h, Some(s), cutoff)
  }

  lemma AgreesTrimmed(ts: seq<real>, h: seq<Sent>, who: Option<string>, cutoff: real, now: real)
    requires Agrees(ts, h, who, cutoff) && cutoff <= now
    ensures Agrees(Trim(ts, now), h, who, now)
  {
    forall c | c >= now ensures Trim(Trim(ts, now), c) == Trim(TimesOf(h, who), c) {
      TrimFurther(ts, now, c);
    }
  }

  lemma AgreesAppended(ts: seq<real>, h: seq<Sent>, who: Option<string>, cutoff: real, s: Sent)
    requires Agrees(ts, h, who, cutoff)
    ensures Agrees(if By(s, who) then ts + [s.at] else ts, h + [s], who, cutoff)
  {
    assert (h + [s])[..|h|] == h;
    assert TimesOf(h, who) + [] == TimesOf(h, who);
    if By(s, who) {
      forall c | c >= cutoff ensures Trim(ts + [s.at], c) == Trim(TimesOf(h + [s], who), c) {
        TrimAppend(ts, s.at, c);
        TrimAppend(TimesOf(h, who), s.at, c);
      }
    }
  }

  /** One question: the queues give the promised answer, and go on representing the history. */
  lemma CheckKeeps(caps: Caps, st: State, h: seq<Sent>, cutoff: real, sender: string, now: real)
    requires Represents(st, h, cutoff) && cutoff <= now - caps.window && Ascending(h) && Until(h, now)
    ensures Check(caps, st, sender, now).1 == Promised(caps, h, sender, now)
    ensures Represents(Check(caps, st, sender, now).0, Remember(caps, h, Asked(sender, now)), now - caps.window)
  {
    hide Trim, SendsIn, TimesOf;
    var c := now - caps.window;
    TrimCounts(h, None, c, now);
    TrimCounts(h, Some(sender), c, now);
    AgreesTrimmed(st.glob, h, None, cutoff, c);
    AgreesTrimmed(Queue(st, sender), h, Some(sender), cutoff, c);
    var next := Check(caps, st, sender, now);
    assert next.1 == Promised(caps, h, sender, now);
    var sent := Sent(sender, now);
    if next.1 == Allowed {
      AgreesAppended(Trim(st.glob, c), h, None, c, sent);
    }
    forall s ensures Agrees(Queue(next.0, s), Remember(caps, h, Asked(sender, now)), Some(s), c) {
      assert s != sender ==> Queue(next.0, s) == Queue(st, s) && Agrees(Queue(st, s), h, Some(s), c);
      if next.1 == Allowed {
        AgreesAppended(if s == sender then Trim(Queue(st, sender), c) else Queue(st, s), h, Some(s), c, sent);
      }
    }
  }

  lemma {:induction false} HistoryAscends(caps: Caps, evs: seq<Event>, now: real)
    requires Steady(evs) && NotAfter(evs, now)
    ensures Ascending(History(caps, evs)) && Until(History(caps, evs), now)
  {
    if evs != [] {
      var front, last := evs[..|evs| - 1], evs[|evs| - 1];
      HistoryAscends(caps, front, if last.Asked? then last.now else now);
    }
  }

  /** Refinement: on every run with a steady clock, whatever was pruned when, the trimmed queues answer
      the next question exactly as the full history does. */
  lemma QueuesAnswerLikeHistory(caps: Caps, evs: seq<Event>, sender: string, now: real)
    requires Steady(evs) && NotAfter(evs, now)
    ensures Check(caps, Run(caps, evs), sender, now).1 == Promised(caps, History(caps, evs), sender, now)
  {
    RunRepresents(caps, evs, now);
    HistoryAscends(caps, evs, now);
    CheckKeeps(caps, Run(caps, evs), History(caps, evs), now - caps.window, sender, now);
  }

  lemma {:induction false} RunRepresents(caps: Caps, evs: seq<Event>, now: real)
    requires Steady(evs) && NotAfter(evs, now)
    ensures Represents(Run(caps, evs), History(caps, evs), now - caps.window)
  {
    hide Check, Trim, Promised;
    if evs != [] {
      var front, last := evs[..|evs| - 1], evs[|evs| - 1];
      match last
      case Pruned =>
        RunRepresents(caps, front, now);
        assert forall s :: Queue(Prune(Run(caps, front)), s) == Queue(Run(caps, front), s);
      case Asked(sender, at) =>
        RunRepresents(caps, front, at);
        HistoryAscends(caps, front, at);
        CheckKeeps(caps, Run(caps, front), History(caps, front), at - caps.window, sender, at);
    }
  }

  // ---- what the promise is worth ----

  lemma {:induction false} WiderCountsMore(h: seq<Sent>, who: Option<string>, lo: real, hi: real, lo': real, now: real)
    requires lo' <= lo && Until(h, now)
    ensures SendsIn(h, who, lo, hi) <= SendsIn(h, who, lo', now)
  {
    if h != [] {
      WiderCountsMore(h[..|h| - 1], who, lo, hi, lo', now);
    }
  }

  function AtLeastZero(x: int): nat {
    if x < 0 then 0 else x
  }

  lemma {:induction false} HistoryHoldsCaps(caps: Caps, evs: seq<Event>, lo: real, hi: real, sender: string)
    requires Steady(evs) && hi - lo <= caps.window
    ensures SendsIn(History(caps, evs), None, lo, hi) <= AtLeastZero(caps.globalMax)
    ensures SendsIn(History(caps, evs), Some(sender), lo, hi) <= AtLeastZero(caps.perSender)
  {
    if evs != [] {
      var front, last := evs[..|evs| - 1], evs[|evs| - 1];
      var h := History(caps, front);
      HistoryHoldsCaps(caps, front, lo, hi, sender);
      if last.Asked? {
        HistoryAscends(caps, front, last.now);
        if lo <= last.now <= hi {
          WiderCountsMore(h, None, lo, hi, last.now - caps.window, last.now);
          WiderCountsMore(h, Some(sender), lo, hi, last.now - caps.window, last.now);
        }
        assert (h + [Sent(last.sender, last.now)])[..|h|] == h;
      }
    }
  }

  /** The sends the queues allowed. */
  function Sends(caps: Caps, evs: seq<Event>): seq<Sent> {
    if evs == [] then []
    else
      var front, last := evs[..|evs| - 1], evs[|evs| - 1];
      Sends(caps, front)
      + (if last.Asked? && Check(caps, Run(caps, front), last.sender, last.now).1 == Allowed
         then [Sent(last.sender, last.now)] else [])
  }

  lemma {:induction false} SendsAreHistory(caps: Caps, evs: seq<Event>)
    requires Steady(evs)
    ensures Sends(caps, evs) == History(caps, evs)
  {
    hide Check, Promised;
    if evs != [] {
      var front, last := evs[..|evs| - 1], evs[|evs| - 1];
      SendsAreHistory(caps, front);
      if last.Asked? {
        QueuesAnswerLikeHistory(caps, front, last.sender, last.now);
      }
    }
  }

  /** With a steady clock, no closed window of the configured length, wherever it lies, ever holds more
      allowed sends than the global limit, nor more to one sender than the limit per sender. */
  lemma WindowsHoldCaps(caps: Caps, evs: seq<Event>, lo: real, hi: real, sender: string)
    requires Steady(evs) && hi - lo <= caps.window
    ensures SendsIn(Sends(caps, evs), None, lo, hi) <= AtLeastZero(caps.globalMax)
    ensures SendsIn(Sends(caps, evs), Some(sender), lo, hi) <= AtLeastZero(caps.perSender)
  {
    SendsAreHistory(caps, evs);
    HistoryHoldsCaps(caps, evs, lo, hi, sender);
  }

  function Questions(evs: seq<Event>): seq<Event> {
    if evs == [] then []
    else Questions(evs[..|evs| - 1]) + (if evs[|evs| - 1].Asked? then [evs[|evs| - 1]] else [])
  }

  /** Two states that no later question can tell apart. */
  ghost predicate Alike(a: State, b: State) {
    a.glob == b.glob && forall s :: Queue(a, s) == Queue(b, s)
  }

  lemma CheckAlike(caps: Caps, a: State, b: State, sender: string, now: real)
    requires Alike(a, b)
    ensures Alike(Check(caps, a, sender, now).0, Check(caps, b, sender, now).0)
    ensures Check(caps, a, sender, now).1 == Check(caps, b, sender, now).1
  {
    hide Trim;
    var x, y := Check(caps, a, sender, now), Check(caps, b, sender, now);
    assert x.1 == y.1 && x.0.glob == y.0.glob;
    forall s ensures Queue(x.0, s) == Queue(y.0, s) {
      assert s != sender ==> Queue(x.0, s) == Queue(a, s) && Queue(y.0, s) == Queue(b, s);
    }
  }

  /** Pruning is invisible under any clock: leaving every prune out of a run changes no answer. */
  lemma {:induction false} PruningIsInvisible(caps: Caps, evs: seq<Event>, sender: string, now: real)
    ensures Alike(Run(caps, evs), Run(caps, Questions(evs)))
    ensures Check(caps, Run(caps, evs), sender, now).1 == Check(caps, Run(caps, Questions(evs)), sender, now).1
  {
    hide Check;
    if evs != [] {
      var front, last := evs[..|evs| - 1], evs[|evs| - 1];
      PruningIsInvisible(caps, front, sender, now);
      assert Questions(front) + [] == Questions(front);
      if last.Asked? {
        var q := Questions(front);
        assert Questions(evs) == q + [last] && (q + [last])[..|q|] == q;
        CheckAlike(caps, Run(caps, front), Run(caps, q), last.sender, last.now);
      }
    }
    CheckAlike(caps, Run(caps, evs), Run(caps, Questions(evs)), sender, now);
  }

  // ---- clocks that step back ----

  ghost predicate SenderSafe(caps: Caps) {
    forall evs, sender, lo, hi :: hi - lo <= caps.window
      ==> SendsIn(Sends(caps, evs), Some(sender), lo, hi) <= AtLeastZero(caps.perSender)
  }

  ghost predicate GlobalSafe(caps: Caps) {
    forall evs, lo, hi :: hi - lo <= caps.window ==> SendsIn(Sends(caps, evs), None, lo, hi) <= AtLeastZero(caps.globalMax)
  }

  lemma SendsInGrows(h: seq<Sent>, s: Sent, who: Option<string>, lo: real, hi: real)
    ensures SendsIn(h + [s], who, lo, hi) == SendsIn(h, who, lo, hi) + (if By(s, who) && lo <= s.at <= hi then 1 else 0)
    ensures h + [] == h
  {
    assert (h + [s])[..|h|] == h;
  }

  lemma TrimOne(ts: seq<real>, cutoff: real)
    requires |ts| <= 1
    ensures Trim(ts, cutoff) == if ts != [] && ts[0] < cutoff then [] else ts
  {
  }

  /** A run one question longer. */
  lemma OneMore(caps: Caps, front: seq<Event>, ev: Event, who: Option<string>, lo: real, hi: real)
    requires ev.Asked?
    ensures Run(caps, front + [ev]) == Check(caps, Run(caps, front), ev.sender, ev.now).0
    ensures SendsIn(Sends(caps, front + [ev]), who, lo, hi)
         == SendsIn(Sends(caps, front), who, lo, hi)
            + (if Check(caps, Run(caps, front), ev.sender, ev.now).1 == Allowed
                  && By(Sent(ev.sender, ev.now), who) && lo <= ev.now <= hi then 1 else 0)
  {
    assert (front + [ev])[..|front|] == front;
    SendsInGrows(Sends(caps, front), Sent(ev.sender, ev.now), who, lo, hi);
    hide Check, SendsIn;
  }

  lemma OnePrune(caps: Caps, front: seq<Event>)
    ensures Run(caps, front + [Pruned]) == Prune(Run(caps, front)) && Sends(caps, front + [Pruned]) == Sends(caps, front)
  {
    assert (front + [Pruned])[..|front|] == front;
    assert Sends(caps, front) + [] == Sends(caps, front);
  }

  /** `n` of the sends to a sender lie in a window that starts at `lo`; then the queue holds the last one. */
  ghost predicate AtMostOne(q: seq<real>, n: nat, lo: real) {
    n <= 1 && |q| <= 1 && (n == 1 ==> |q| == 1 && q[0] >= lo)
  }

  lemma SingleStep(caps: Caps, st: State, asker: string, now: real, sender: string, lo: real, hi: real, n: nat)
    requires caps.perSender == 1 && caps.window >= 0.0 && hi - lo <= caps.window && AtMostOne(Queue(st, sender), n, lo)
    ensures var (next, answer) := Check(caps, st, asker, now);
            AtMostOne(Queue(next, sender), n + (if answer == Allowed && asker == sender && lo <= now <= hi then 1 else 0), lo)
  {
    TrimOne(Queue(st, sender), now - caps.window);
    hide Trim;
  }

  /** With a limit of one, two sends to a sender are always more than a window apart: the queue holds the
      last one, and the clock has to pass it by a window before there is another. */
  lemma {:induction false} SingleSends(caps: Caps, evs: seq<Event>, sender: string, lo: real, hi: real)
    requires caps.perSender == 1 && caps.window >= 0.0 && hi - lo <= caps.window
    ensures AtMostOne(Queue(Run(caps, evs), sender), SendsIn(Sends(caps, evs), Some(sender), lo, hi), lo)
  {
    if evs != [] {
      var front, last := evs[..|evs| - 1], evs[|evs| - 1];
      assert evs == front + [last];
      SingleSends(caps, front, sender, lo, hi);
      hide AtMostOne, Check, SendsIn, Run, Sends;
      if last.Asked? {
        SingleStep(caps, Run(caps, front), last.sender, last.now, sender, lo, hi,
                   SendsIn(Sends(caps, front), Some(sender), lo, hi));
        OneMore(caps, front, last, Some(sender), lo, hi);
      } else {
        OnePrune(caps, front);
      }
    }
  }

  lemma {:induction false} NothingSent(caps: Caps, evs: seq<Event>, who: Option<string>, lo: real, hi: real)
    requires caps.perSender <= 0 || caps.globalMax <= 0
    ensures SendsIn(Sends(caps, evs), who, lo, hi) == 0
  {
    if evs != [] {
      var front, last := evs[..|evs| - 1], evs[|evs| - 1];
      NothingSent(caps, front, who, lo, hi);
      assert last.Asked? ==> Check(caps, Run(caps, front), last.sender, last.now).1 != Allowed;
      hide Check;
      assert Sends(caps, evs) == Sends(caps, front) + [] == Sends(caps, front);
    }
  }

  /** The same for the global limit, as long as a sender may have one send: its queue never outlasts the
      global one. */
  ghost predicate Under(q: seq<real>, glob: seq<real>) {
    forall i :: 0 <= i < |q| ==> glob != [] && q[i] <= glob[0]
  }

  ghost predicate OneGlobal(st: State) {
    |st.glob| <= 1 && forall s :: Under(Queue(st, s), st.glob)
  }

  lemma OneGlobalStep(caps: Caps, st: State, sender: string, now: real)
    requires caps.globalMax == 1 && caps.perSender >= 1 && caps.window >= 0.0 && OneGlobal(st)
    ensures var (next, answer) := Check(caps, st, sender, now);
            && OneGlobal(next)
            && (if answer == Allowed then next.glob == [now] && (st.glob != [] ==> st.glob[0] < now - caps.window)
                else next.glob == st.glob)
  {
    var cutoff := now - caps.window;
    TrimOne(st.glob, cutoff);
    assert Under(Queue(st, sender), st.glob);
    if st.glob == [] || st.glob[0] < cutoff {
      AllTrimmed(Queue(st, sender), cutoff);
      hide Trim;
      var next := Check(caps, st, sender, now).0;
      forall s ensures Under(Queue(next, s), [now]) {
        assert s != sender ==> Queue(next, s) == Queue(st, s) && Under(Queue(st, s), st.glob);
      }
    }
  }

  ghost predicate AtMostOneOverall(st: State, n: nat, lo: real) {
    OneGlobal(st) && n <= 1 && (n == 1 ==> st.glob != [] && st.glob[0] >= lo)
  }

  lemma SingleGlobalStep(caps: Caps, st: State, sender: string, now: real, lo: real, hi: real, n: nat)
    requires caps.globalMax == 1 && caps.perSender >= 1 && caps.window >= 0.0 && hi - lo <= caps.window
    requires AtMostOneOverall(st, n, lo)
    ensures var (next, answer) := Check(caps, st, sender, now);
            AtMostOneOverall(next, n + (if answer == Allowed && lo <= now <= hi then 1 else 0), lo)
  {
    OneGlobalStep(caps, st, sender, now);
    hide OneGlobal, Check;
  }

  lemma {:induction false} SingleGlobalSends(caps: Caps, evs: seq<Event>, lo: real, hi: real)
    requires caps.globalMax == 1 && caps.perSender >= 1 && caps.window >= 0.0 && hi - lo <= caps.window
    ensures AtMostOneOverall(Run(caps, evs), SendsIn(Sends(caps, evs), None, lo, hi), lo)
  {
    if evs != [] {
      var front, last := evs[..|evs| - 1], evs[|evs| - 1];
      assert evs == front + [last];
      SingleGlobalSends(caps, front, lo, hi);
      hide AtMostOneOverall, Check, SendsIn, Run, Sends;
      if last.Asked? {
        SingleGlobalStep(caps, Run(caps, front), last.sender, last.now, lo, hi, SendsIn(Sends(caps, front), None, lo, hi));
        OneMore(caps, front, last, None, lo, hi);
      } else {
        PruneKeepsGlobal(Run(caps, front), SendsIn(Sends(caps, front), None, lo, hi), lo);
        OnePrune(caps, front);
      }
    } else {
      assert forall s :: Queue(FRESH, s) == [];
    }
  }

  lemma PruneKeepsGlobal(st: State, n: nat, lo: real)
    requires AtMostOneOverall(st, n, lo)
    ensures AtMostOneOverall(Prune(st), n, lo)
  {
    forall s ensures Under(Queue(Prune(st), s), st.glob) {
      assert Queue(Prune(st), s) == Queue(st, s) && Under(Queue(st, s), st.glob);
    }
  }

  /** `n` questions at one time: all from one sender, or each from a new one. */
  function Asker(alone: bool, n: nat): string {
    if n == 0 || alone then "a" else Asker(alone, n - 1) + "a"
  }

  function Burst(alone: bool, t: real, n: nat): seq<Event> {
    if n == 0 then [] else Burst(alone, t, n - 1) + [Asked(Asker(alone, n - 1), t)]
  }

  function Same(t: real, n: nat): seq<real> {
    if n == 0 then [] else Same(t, n - 1) + [t]
  }

  lemma {:induction false} SameTrims(t: real, n: nat, cutoff: real)
    ensures |Same(t, n)| == n && (forall i :: 0 <= i < n ==> Same(t, n)[i] == t)
    ensures Trim(Same(t, n), cutoff) == if t < cutoff then [] else Same(t, n)
  {
    if n > 0 {
      SameTrims(t, n - 1, cutoff);
    }
    if t < cutoff {
      AllTrimmed(Same(t, n), cutoff);
    }
  }

  lemma {:induction false} AskerLength(n: nat)
    ensures |Asker(false, n)| == n + 1
  {
    if n > 0 {
      AskerLength(n - 1);
    }
  }

  lemma NewAsker(i: nat, n: nat)
    requires i < n
    ensures Asker(false, i) != Asker(false, n)
  {
    AskerLength(i);
    AskerLength(n);
  }

  /** The queue of the next asker after a burst. */
  function OwnAfter(alone: bool, t: real, n: nat): seq<real> {
    if alone then Same(t, n) else []
  }

  ghost predicate BurstState(st: State, alone: bool, t: real, n: nat) {
    && st.glob == Same(t, n)
    && (alone ==> Queue(st, "a") == Same(t, n))
    && (!alone ==> forall m :: m >= n ==> Queue(st, Asker(false, m)) == [])
  }

  /** Room for one more in a burst. */
  predicate Roomy(caps: Caps, alone: bool, n: nat) {
    n <= caps.globalMax && caps.perSender >= 1 && (alone ==> n <= caps.perSender)
  }

  lemma BurstStep(caps: Caps, st: State, alone: bool, t: real, n: nat)
    requires caps.window >= 0.0 && Roomy(caps, alone, n + 1) && BurstState(st, alone, t, n)
    ensures var (next, answer) := Check(caps, st, Asker(alone, n), t);
            answer == Allowed && BurstState(next, alone, t, n + 1)
  {
    SameTrims(t, n, t - caps.window);
    assert Trim([], t - caps.window) == [];
    hide Trim, Same;
    var next := Check(caps, st, Asker(alone, n), t).0;
    if !alone {
      forall m | m >= n + 1 ensures Queue(next, Asker(false, m)) == [] {
        NewAsker(n, m);
      }
    }
  }

  function Whose(alone: bool): Option<string> {
    if alone then Some("a") else None
  }

  lemma ByAsker(alone: bool, n: nat, at: real)
    ensures By(Sent(Asker(alone, n), at), Whose(alone))
  {
  }

  /** After a burst: the state, and how many of its sends lie in a window around it. */
  ghost predicate BurstDone(caps: Caps, alone: bool, t: real, n: nat, lo: real, hi: real) {
    && BurstState(Run(caps, Burst(alone, t, n)), alone, t, n)
    && SendsIn(Sends(caps, Burst(alone, t, n)), Whose(alone), lo, hi) == n
  }

  lemma BurstMore(caps: Caps, alone: bool, t: real, n: nat, lo: real, hi: real)
    requires caps.window >= 0.0 && Roomy(caps, alone, n + 1) && lo <= t <= hi && BurstDone(caps, alone, t, n, lo, hi)
    ensures BurstDone(caps, alone, t, n + 1, lo, hi)
  {
    hide Check, BurstState, SendsIn, Run, Sends, Asker, By, Whose, Roomy;
    var front, ev := Burst(alone, t, n), Asked(Asker(alone, n), t);
    assert Burst(alone, t, n + 1) == front + [ev];
    hide Burst;
    BurstStep(caps, Run(caps, front), alone, t, n);
    ByAsker(alone, n, t);
    OneMore(caps, front, ev, Whose(alone), lo, hi);
  }

  lemma NoBurst(caps: Caps, alone: bool, t: real, lo: real, hi: real)
    ensures BurstDone(caps, alone, t, 0, lo, hi)
  {
    assert Run(caps, []) == FRESH;
    hide Asker;
  }

  lemma {:induction false} BurstPasses(caps: Caps, alone: bool, t: real, n: nat, lo: real, hi: real)
    requires caps.window >= 0.0 && Roomy(caps, alone, n) && lo <= t <= hi
    ensures BurstDone(caps, alone, t, n, lo, hi)
  {
    hide BurstDone;
    if n == 0 {
      NoBurst(caps, alone, t, lo, hi);
    } else {
      BurstPasses(caps, alone, t, n - 1, lo, hi);
      BurstMore(caps, alone, t, n - 1, lo, hi);
    }
  }

  /** The limit many sends at one time, one just after their window, and one stamped as if it lay at the
      window's very end. */
  function StepBack(caps: Caps, alone: bool, t: real, eps: real, n: nat): seq<Event> {
    Burst(alone, t, n) + [Asked(Asker(alone, n), t + caps.window + eps)] + [Asked(Asker(alone, n + 1), t + caps.window)]
  }

  lemma StepBackAnswers(caps: Caps, st: State, alone: bool, t: real, eps: real, n: nat)
    requires caps.window >= 0.0 && eps > 0.0 && n >= 2 && Roomy(caps, alone, n) && BurstState(st, alone, t, n)
    ensures var late := Check(caps, st, Asker(alone, n), t + caps.window + eps);
            && late.1 == Allowed
            && Check(caps, late.0, Asker(alone, n + 1), t + caps.window).1 == Allowed
  {
    var now := t + caps.window + eps;
    SameTrims(t, n, now - caps.window);
    assert Trim([], now - caps.window) == [] && Trim([], t) == [];
    TrimOne([now], t);
    hide Trim, Same;
    var late := Check(caps, st, Asker(alone, n), now);
    assert late.0.glob == [] + [now] == [now];
    if alone {
      assert Queue(late.0, "a") == [] + [now] == [now];
    } else {
      NewAsker(n, n + 1);
    }
  }

  /** For every limit of two or more, every window, every time and every step back, however small, that
      run puts one send too many into one closed window. */
  lemma StepBackOverfills(caps: Caps, alone: bool, t: real, eps: real, n: nat)
    requires caps.window >= 0.0 && eps > 0.0 && n >= 2 && Roomy(caps, alone, n)
    ensures SendsIn(Sends(caps, StepBack(caps, alone, t, eps, n)), Whose(alone), t, t + caps.window) == n + 1
  {
    hide Check, BurstState, SendsIn, Run, Sends, Burst, Asker, By, Whose;
    var burst, hi := Burst(alone, t, n), t + caps.window;
    var late, last := Asked(Asker(alone, n), hi + eps), Asked(Asker(alone, n + 1), hi);
    assert StepBack(caps, alone, t, eps, n) == burst + [late] + [last];
    hide StepBack, Roomy;
    BurstPasses(caps, alone, t, n, t, hi);
    StepBackAnswers(caps, Run(caps, burst), alone, t, eps, n);
    ByAsker(alone, n + 1, hi);
    OneMore(caps, burst, late, Whose(alone), t, hi);
    OneMore(caps, burst + [late], last, Whose(alone), t, hi);
  }

  // ---- no bound at all ----

  /** Times a window and a little apart. */
  function Late(caps: Caps, t: real, eps: real, n: nat): real {
    if n == 0 then t else Late(caps, t, eps, n - 1) + caps.window + eps
  }

  lemma {:induction false} LateIsLater(caps: Caps, t: real, eps: real, n: nat)
    requires caps.window >= 0.0 && eps > 0.0
    ensures Late(caps, t, eps, n) >= t && (n > 0 ==> Late(caps, t, eps, n) > t)
  {
    if n > 0 {
      LateIsLater(caps, t, eps, n - 1);
    }
  }

  /** A send at `t`, and then again and again a later send that empties the queues and one more at `t`. */
  function Rounds(caps: Caps, alone: bool, t: real, eps: real, n: nat): seq<Event> {
    if n == 0 then [Asked(Asker(alone, 0), t)]
    else
      Rounds(caps, alone, t, eps, n - 1)
      + [Asked(Asker(alone, 2 * n - 1), Late(caps, t, eps, n))] + [Asked(Asker(alone, 2 * n), t)]
  }

  ghost predicate RoundState(st: State, alone: bool, q: seq<real>, n: nat) {
    && st.glob == q
    && (alone ==> Queue(st, "a") == q)
    && (!alone ==> forall m :: m > 2 * n ==> Queue(st, Asker(false, m)) == [])
  }

  /** Two limits that let a queue hold two times. */
  predicate TwoFit(caps: Caps, alone: bool) {
    caps.window >= 0.0 && caps.globalMax >= 2 && caps.perSender >= (if alone then 2 else 1)
  }

  /** What one question does to queues of which everything or nothing has expired. */
  lemma AskOnce(caps: Caps, st: State, alone: bool, q: seq<real>, k: nat, now: real, left: seq<real>)
    requires TwoFit(caps, alone) && st.glob == q && Queue(st, Asker(alone, k)) == (if alone then q else [])
    requires Trim(q, now - caps.window) == left && |left| <= 1
    ensures var (next, answer) := Check(caps, st, Asker(alone, k), now);
            && answer == Allowed && next.glob == left + [now]
            && Queue(next, Asker(alone, k)) == (if alone then left + [now] else [now])
            && forall s :: s != Asker(alone, k) ==> Queue(next, s) == Queue(st, s)
  {
    assert Trim([], now - caps.window) == [];
    hide Trim, Asker;
  }

  lemma FirstOfRound(caps: Caps, st: State, alone: bool, late: real, q: seq<real>, n: nat)
    requires TwoFit(caps, alone) && RoundState(st, alone, q, n)
    requires forall i :: 0 <= i < |q| ==> q[i] < late - caps.window
    ensures var (one, answer) := Check(caps, st, Asker(alone, 2 * n + 1), late);
            && answer == Allowed && one.glob == [late] && (alone ==> Queue(one, "a") == [late])
            && (!alone ==> forall m :: m > 2 * n + 1 ==> Queue(one, Asker(false, m)) == [])
  {
    AllTrimmed(q, late - caps.window);
    AskOnce(caps, st, alone, q, 2 * n + 1, late, []);
    assert [] + [late] == [late];
    hide Check, Trim;
    if !alone {
      forall m | m > 2 * n + 1 ensures Asker(false, m) != Asker(false, 2 * n + 1) {
        NewAsker(2 * n + 1, m);
      }
    }
  }

  lemma SecondOfRound(caps: Caps, one: State, alone: bool, t: real, late: real, n: nat)
    requires TwoFit(caps, alone) && late >= t && one.glob == [late] && (alone ==> Queue(one, "a") == [late])
    requires !alone ==> forall m :: m > 2 * n + 1 ==> Queue(one, Asker(false, m)) == []
    ensures var (two, answer) := Check(caps, one, Asker(alone, 2 * n + 2), t);
            answer == Allowed && RoundState(two, alone, [late, t], n + 1)
  {
    TrimOne([late], t - caps.window);
    AskOnce(caps, one, alone, [late], 2 * n + 2, t, [late]);
    assert [late] + [t] == [late, t];
    hide Check, Trim;
    if !alone {
      forall m | m > 2 * n + 2 ensures Asker(false, m) != Asker(false, 2 * n + 2) {
        NewAsker(2 * n + 2, m);
      }
    }
  }

  lemma RoundStep(caps: Caps, st: State, alone: bool, t: real, late: real, q: seq<real>, n: nat)
    requires TwoFit(caps, alone) && RoundState(st, alone, q, n)
    requires forall i :: 0 <= i < |q| ==> q[i] < late - caps.window
    requires late >= t
    ensures var one := Check(caps, st, Asker(alone, 2 * n + 1), late);
            var two := Check(caps, one.0, Asker(alone, 2 * n + 2), t);
            one.1 == Allowed && two.1 == Allowed && RoundState(two.0, alone, [late, t], n + 1)
  {
    hide Check, RoundState, TwoFit, Asker;
    FirstOfRound(caps, st, alone, late, q, n);
    SecondOfRound(caps, Check(caps, st, Asker(alone, 2 * n + 1), late).0, alone, t, late, n);
  }

  function RoundQueue(caps: Caps, t: real, eps: real, n: nat): seq<real> {
    if n == 0 then [t] else [Late(caps, t, eps, n), t]
  }

  ghost predicate RoundsDone(caps: Caps, alone: bool, t: real, eps: real, n: nat) {
    && RoundState(Run(caps, Rounds(caps, alone, t, eps, n)), alone, RoundQueue(caps, t, eps, n), n)
    && SendsIn(Sends(caps, Rounds(caps, alone, t, eps, n)), Whose(alone), t, t) == n + 1
  }

  lemma NoRounds(caps: Caps, alone: bool, t: real, eps: real)
    requires TwoFit(caps, alone)
    ensures RoundsDone(caps, alone, t, eps, 0)
  {
    var first := Asked(Asker(alone, 0), t);
    assert [] + [first] == [first] && Run(caps, []) == FRESH && Sends(caps, []) == [];
    AskOnce(caps, FRESH, alone, [], 0, t, []);
    assert [] + [t] == [t];
    ByAsker(alone, 0, t);
    OneMore(caps, [], first, Whose(alone), t, t);
    hide Check, Run, Sends, By, Whose;
    if !alone {
      forall m | m > 0 ensures Queue(FRESH, Asker(false, m)) == [] && Asker(false, m) != Asker(false, 0) {
        NewAsker(0, m);
      }
    }
  }

  lemma MoreRounds(caps: Caps, alone: bool, t: real, eps: real, n: nat)
    requires TwoFit(caps, alone) && eps > 0.0 && RoundsDone(caps, alone, t, eps, n)
    ensures RoundsDone(caps, alone, t, eps, n + 1)
  {
    hide Check, RoundState, SendsIn, Run, Sends, Asker, By, Whose;
    var front, late := Rounds(caps, alone, t, eps, n), Late(caps, t, eps, n + 1);
    var x, y := Asked(Asker(alone, 2 * n + 1), late), Asked(Asker(alone, 2 * n + 2), t);
    assert Rounds(caps, alone, t, eps, n + 1) == front + [x] + [y];
    LateIsLater(caps, t, eps, n);
    LateIsLater(caps, t, eps, n + 1);
    RoundStep(caps, Run(caps, front), alone, t, late, RoundQueue(caps, t, eps, n), n);
    ByAsker(alone, 2 * n + 2, t);
    hide Rounds, Late;
    OneMore(caps, front, x, Whose(alone), t, t);
    OneMore(caps, front + [x], y, Whose(alone), t, t);
  }

  /** As soon as two times fit into a queue, a clock that steps back puts any number of sends into a single
      instant, whatever the limits are beyond that. */
  lemma {:induction false} StepBackIsUnbounded(caps: Caps, alone: bool, t: real, eps: real, n: nat)
    requires TwoFit(caps, alone) && eps > 0.0
    ensures RoundsDone(caps, alone, t, eps, n)
  {
    hide RoundsDone;
    if n == 0 {
      NoRounds(caps, alone, t, eps);
    } else {
      StepBackIsUnbounded(caps, alone, t, eps, n - 1);
      MoreRounds(caps, alone, t, eps, n - 1);
    }
  }

  // ---- which limits survive every clock ----

  lemma {:induction false} OneSenderIsPart(h: seq<Sent>, sender: string, lo: real, hi: real)
    ensures SendsIn(h, Some(sender), lo, hi) <= SendsIn(h, None, lo, hi)
    ensures lo > hi ==> SendsIn(h, None, lo, hi) == 0
  {
    if h != [] {
      OneSenderIsPart(h[..|h| - 1], sender, lo, hi);
    }
  }

  lemma SafeForSender(caps: Caps, evs: seq<Event>, sender: string, lo: real, hi: real)
    requires caps.window < 0.0 || caps.perSender <= 1 || caps.globalMax <= 1
    requires hi - lo <= caps.window
    ensures SendsIn(Sends(caps, evs), Some(sender), lo, hi) <= AtLeastZero(caps.perSender)
  {
    hide SendsIn, Sends, Check;
    OneSenderIsPart(Sends(caps, evs), sender, lo, hi);
    if caps.window < 0.0 {
    } else if caps.perSender <= 0 || caps.globalMax <= 0 {
      NothingSent(caps, evs, Some(sender), lo, hi);
    } else if caps.perSender == 1 {
      SingleSends(caps, evs, sender, lo, hi);
    } else {
      SingleGlobalSends(caps, evs, lo, hi);
    }
  }

  lemma SafeOverall(caps: Caps, evs: seq<Event>, lo: real, hi: real)
    requires caps.window < 0.0 || caps.perSender <= 0 || caps.globalMax <= 1
    requires hi - lo <= caps.window
    ensures SendsIn(Sends(caps, evs), None, lo, hi) <= AtLeastZero(caps.globalMax)
  {
    hide SendsIn, Sends, Check;
    OneSenderIsPart(Sends(caps, evs), "", lo, hi);
    if caps.window < 0.0 {
    } else if caps.perSender <= 0 || caps.globalMax <= 0 {
      NothingSent(caps, evs, None, lo, hi);
    } else {
      SingleGlobalSends(caps, evs, lo, hi);
    }
  }

  /** The limit per sender holds under every clock if and only if it or the global limit is at most one (or
      the window is empty). */
  lemma SenderLimitUnderAnyClock(caps: Caps)
    ensures SenderSafe(caps) <==> caps.window < 0.0 || caps.perSender <= 1 || caps.globalMax <= 1
  {
    hide SendsIn, Sends, Check, Rounds, Run, RoundState;
    if caps.window < 0.0 || caps.perSender <= 1 || caps.globalMax <= 1 {
      forall evs, sender, lo, hi | hi - lo <= caps.window
        ensures SendsIn(Sends(caps, evs), Some(sender), lo, hi) <= AtLeastZero(caps.perSender)
      {
        SafeForSender(caps, evs, sender, lo, hi);
      }
    } else {
      StepBackIsUnbounded(caps, true, 0.0, 1.0, caps.perSender);
    }
  }

  /** The global limit holds under every clock if and only if it is at most one or nobody may send at all
      (or the window is empty). */
  lemma GlobalLimitUnderAnyClock(caps: Caps)
    ensures GlobalSafe(caps) <==> caps.window < 0.0 || caps.perSender <= 0 || caps.globalMax <= 1
  {
    hide SendsIn, Sends, Check, Rounds, Run, RoundState;
    if caps.window < 0.0 || caps.perSender <= 0 || caps.globalMax <= 1 {
      forall evs, lo, hi | hi - lo <= caps.window
        ensures SendsIn(Sends(caps, evs), None, lo, hi) <= AtLeastZero(caps.globalMax)
      {
        SafeOverall(caps, evs, lo, hi);
      }
    } else {
      StepBackIsUnbounded(caps, false, 0.0, 1.0, caps.globalMax);
    }
  }
}
