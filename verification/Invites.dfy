/** The welcome tour and its invite codes (echo_tour.py): a record per sender, a pool of codes, and two
    files whose reads and writes may fail at any step. */
module Invites {
  import opened Wrappers

  const WELCOME := 0
  const WORDS := 2
  const PLATFORM := 3
  const PWA_MOBILE := 4
  const COMPLETE := 5

  datatype Platform = Mobile | Desktop

  /** What the normalised text of a message amounts to, and the platform it names, if it names one. */
  datatype Word = Next | Again | Codes | Other

  datatype Said = Said(word: Word, place: Option<Platform>)

  datatype Rec = Rec(step: nat, codes: seq<string>, platform: Option<Platform>, asks: nat)

  datatype Pool = Pool(codes: seq<string>, lowAlerted: bool)

  /** The two files. */
  datatype Disk = Disk(users: map<string, Rec>, pool: Option<Pool>)

  /** Which file operations work during one step. */
  datatype Works = Works(stateReads: bool, stateSaves: bool, poolReads: bool, poolSaves: bool)

  datatype Reply = StepText(step: nat) | AskAgain | Nudge | Completed(codes: seq<string>, desktop: bool)

  datatype Setting = Setting(perFinish: nat, lowThreshold: int)

  function PoolCodes(pool: Option<Pool>): seq<string> {
    match pool
    case None => []
    case Some(p) => p.codes
  }

  // ---- the pool ----

  function Pop(pool: Option<Pool>, n: nat, w: Works): (Option<Pool>, seq<string>) {
    if !w.poolReads || !w.poolSaves || PoolCodes(pool) == [] then (pool, [])
    else
      var codes := pool.value.codes;
      var k := if n < |codes| then n else |codes|;
      (Some(pool.value.(codes := codes[k..])), codes[..k])
  }

  /** One poll of the pool: its new content, and the number of codes left if that is to be reported. */
  function CheckLow(pool: Option<Pool>, threshold: int, w: Works): (Option<Pool>, Option<nat>) {
    if !w.poolReads || pool.None? then (pool, None)
    else
      var p := pool.value;
      if |p.codes| < threshold && !p.lowAlerted then
        if w.poolSaves then (Some(p.(lowAlerted := true)), Some(|p.codes|)) else (pool, None)
      else if |p.codes| >= threshold && p.lowAlerted && w.poolSaves then (Some(p.(lowAlerted := false)), None)
      else (pool, None)
  }

  /** A poll reports if and only if both file operations work and the pool is low and not marked so yet, and
      it reports how many codes are left. It leaves the codes alone, and when the file can be read and
      written the mark then says whether the pool is low. */
  lemma CheckLowIff(pool: Option<Pool>, threshold: int, w: Works)
    ensures var (after, left) := CheckLow(pool, threshold, w);
            && (left.Some? <==> w.poolReads && w.poolSaves && pool.Some?
                                && |pool.value.codes| < threshold && !pool.value.lowAlerted)
            && (left.Some? ==> left.value == |pool.value.codes|)
            && (pool.None? ==> after.None?)
            && (pool.Some? ==> after.Some? && after.value.codes == pool.value.codes
                               && after.value.lowAlerted == if w.poolReads && w.poolSaves
                                                            then |pool.value.codes| < threshold
                                                            else pool.value.lowAlerted)
  {
  }

  // ---- one message ----

  /** The files after a message, the reply, and the codes that left the pool for it. */
  datatype Turn = Turn(disk: Disk, reply: Reply, granted: seq<string>)

  function Saved(d: Disk, w: Works, users: map<string, Rec>, pool: Option<Pool>): Disk {
    Disk(if w.stateSaves then users else d.users, pool)
  }

  function Finished(cfg: Setting, d: Disk, w: Works, users: map<string, Rec>, sender: string, rec: Rec, desktop: bool): Turn {
    var (pool, codes) := Pop(d.pool, cfg.perFinish, w);
    Turn(Saved(d, w, users[sender := rec.(step := COMPLETE, codes := codes)], pool), Completed(codes, desktop), codes)
  }

  function ToMobileStep(d: Disk, w: Works, users: map<string, Rec>, sender: string, rec: Rec): Turn {
    Turn(Saved(d, w, users[sender := rec.(platform := Some(Mobile), step := PWA_MOBILE)], d.pool), StepText(PWA_MOBILE), [])
  }

  function AfterTour(cfg: Setting, d: Disk, w: Works, users: map<string, Rec>, sender: string, rec: Rec, said: Said): Turn {
    if said.word == Codes && rec.codes == [] then
      var (pool, codes) := Pop(d.pool, cfg.perFinish, w);
      if codes == [] then Turn(d.(pool := pool), Completed([], false), [])
      else Turn(Saved(d, w, users[sender := rec.(codes := codes)], pool), Completed(codes, false), codes)
    else Turn(d, Completed(rec.codes, false), [])
  }

  function ChoosePlatform(cfg: Setting, d: Disk, w: Works, users: map<string, Rec>, sender: string, rec: Rec,
                          choice: Option<Platform>): Turn {
    if choice == Some(Desktop) then Finished(cfg, d, w, users, sender, rec.(platform := Some(Desktop)), true)
    else if choice == Some(Mobile) || rec.asks >= 1 then ToMobileStep(d, w, users, sender, rec)
    else Turn(Saved(d, w, users[sender := rec.(asks := rec.asks + 1)], d.pool), AskAgain, [])
  }

  function MoveOn(cfg: Setting, d: Disk, w: Works, users: map<string, Rec>, sender: string, rec: Rec, hint: Option<Platform>): Turn {
    if rec.step == WORDS && hint == Some(Desktop) then Finished(cfg, d, w, users, sender, rec.(platform := Some(Desktop)), true)
    else if rec.step == WORDS && hint == Some(Mobile) then ToMobileStep(d, w, users, sender, rec)
    else if rec.step == PWA_MOBILE then Finished(cfg, d, w, users, sender, rec, false)
    else Turn(Saved(d, w, users[sender := rec.(step := rec.step + 1)], d.pool), StepText(rec.step + 1), [])
  }

  function Either(a: Option<Platform>, b: Option<Platform>): Option<Platform> {
    if a.Some? then a else b
  }

  function Advance(cfg: Setting, d: Disk, sender: string, said: Said, hint: Option<Platform>, w: Works): Turn {
    var users := if w.stateReads then d.users else map[];
    if sender !in users then
      Turn(Saved(d, w, users[sender := Rec(WELCOME, [], None, 0)], d.pool), StepText(WELCOME), [])
    else
      var rec := users[sender];
      if rec.step >= COMPLETE then AfterTour(cfg, d, w, users, sender, rec, said)
      else if said.word == Again then Turn(Saved(d, w, users, d.pool), StepText(rec.step), [])
      else if rec.step == PLATFORM then ChoosePlatform(cfg, d, w, users, sender, rec, Either(hint, said.place))
      else if said.word == Next then MoveOn(cfg, d, w, users, sender, rec, Either(hint, rec.platform))
      else Turn(Saved(d, w, users, d.pool), Nudge, [])
  }

  /** The engine as it runs: records and pool are read, changed in place and written back. */
  class Concierge {
    const cfg: Setting
    var users: map<string, Rec>
    var pool: Option<Pool>

    ghost function Files(): Disk
      reads this
    {
      Disk(users, pool)
    }

    constructor (cfg: Setting, pool: Option<Pool>)
      ensures this.cfg == cfg && Files() == Disk(map[], pool)
    {
      this.cfg, this.users, this.pool := cfg, map[], pool;
    }

    method PopCodes(w: Works) returns (taken: seq<string>)
      modifies this`pool
      ensures (pool, taken) == Pop(old(pool), cfg.perFinish, w)
    {
      if !w.poolReads || pool.None? || pool.value.codes == [] {
        return [];
      }
      var codes := pool.value.codes;
      taken := codes[..if cfg.perFinish < |codes| then cfg.perFinish else |codes|];
      if !w.poolSaves {
        return [];
      }
      pool := Some(pool.value.(codes := codes[|taken|..]));
    }

    method Save(state: map<string, Rec>, w: Works)
      modifies this`users
      ensures users == if w.stateSaves then state else old(users)
    {
      if w.stateSaves {
        users := state;
      }
    }

    method Finish(state: map<string, Rec>, sender: string, rec: Rec, desktop: bool, w: Works)
      returns (reply: Reply, ghost granted: seq<string>)
      modifies this
      ensures Turn(Files(), reply, granted) == Finished(cfg, old(Files()), w, state, sender, rec, desktop)
    {
      var codes := PopCodes(w);
      Save(state[sender := rec.(codes := codes, step := COMPLETE)], w);
      return Completed(codes, desktop), codes;
    }

    method Handle(sender: string, said: Said, hint: Option<Platform>, w: Works)
      returns (reply: Reply, ghost granted: seq<string>)
      modifies this
      ensures Turn(Files(), reply, granted) == Advance(cfg, old(Files()), sender, said, hint, w)
    {
      var state := if w.stateReads then users else map[];
      granted := [];
      if sender !in state {
        Save(state[sender := Rec(WELCOME, [], None, 0)], w);
        return StepText(WELCOME), [];
      }
      var rec := state[sender];
      if rec.step >= COMPLETE {
        if said.word == Codes && rec.codes == [] {
          var codes := PopCodes(w);
          if codes != [] {
            Save(state[sender := rec.(codes := codes)], w);
          }
          return Completed(codes, false), codes;
        }
        return Completed(rec.codes, false), [];
      }
      if said.word == Again {
        Save(state, w);
        return StepText(rec.step), [];
      }
      if rec.step == PLATFORM {
        var choice := if hint.Some? then hint else said.place;
        if choice == Some(Desktop) {
          reply, granted := Finish(state, sender, rec.(platform := Some(Desktop)), true, w);
          return;
        }
        if choice != Some(Mobile) && rec.asks < 1 {
          Save(state[sender := rec.(asks := rec.asks + 1)], w);
          return AskAgain, [];
        }
        Save(state[sender := rec.(platform := Some(Mobile), step := PWA_MOBILE)], w);
        return StepText(PWA_MOBILE), [];
      }
      if said.word == Next {
        var known := if hint.Some? then hint else rec.platform;
        if rec.step == WORDS && known == Some(Desktop) {
          reply, granted := Finish(state, sender, rec.(platform := Some(Desktop)), true, w);
          return;
        }
        if rec.step == WORDS && known == Some(Mobile) {
          Save(state[sender := rec.(platform := Some(Mobile), step := PWA_MOBILE)], w);
          return StepText(PWA_MOBILE), [];
        }
        if rec.step == PWA_MOBILE {
          reply, granted := Finish(state, sender, rec, false, w);
          return;
        }
        Save(state[sender := rec.(step := rec.step + 1)], w);
        return StepText(rec.step + 1), [];
      }
      Save(state, w);
      return Nudge, [];
    }

    method CheckLowPool(w: Works) returns (left: Option<nat>)
      modifies this`pool
      ensures (pool, left) == CheckLow(old(pool), cfg.lowThreshold, w)
    {
      if !w.poolReads || pool.None? {
        return None;
      }
      var remaining, alerted := |pool.value.codes|, pool.value.lowAlerted;
      if remaining < cfg.lowThreshold && !alerted {
        if !w.poolSaves {
          return None;
        }
        pool := Some(pool.value.(lowAlerted := true));
        return Some(remaining);
      }
      if remaining >= cfg.lowThreshold && alerted && w.poolSaves {
        pool := Some(pool.value.(lowAlerted := false));
      }
      return None;
    }
  }

  // ---- runs ----

  datatype Event =
    | Message(sender: string, said: Said, hint: Option<Platform>, works: Works)
    | Poll(works: Works)
    | Fed(codes: seq<string>)

  datatype Grant = Grant(sender: string, codes: seq<string>)

  /** The files, every batch of codes that left the pool and for whom, and every code ever supplied. */
  datatype World = World(disk: Disk, grants: seq<Grant>, supplied: seq<string>)

  function Start(pool: Option<Pool>): World {
    World(Disk(map[], pool), [], PoolCodes(pool))
  }

  function Step(cfg: Setting, s: World, ev: Event): World {
    match ev
    case Message(sender, said, hint, w) =>
      var t := Advance(cfg, s.disk, sender, said, hint, w);
      s.(disk := t.disk, grants := s.grants + [Grant(sender, t.granted)])
    case Poll(w) => s.(disk := s.disk.(pool := CheckLow(s.disk.pool, cfg.lowThreshold, w).0))
    case Fed(codes) =>
      s.(disk := s.disk.(pool := Some(Pool(PoolCodes(s.disk.pool) + codes, s.disk.pool.Some? && s.disk.pool.value.lowAlerted))),
         supplied := s.supplied + codes)
  }

  function Run(cfg: Setting, s: World, evs: seq<Event>): World {
    if evs == [] then s else Step(cfg, Run(cfg, s, evs[..|evs| - 1]), evs[|evs| - 1])
  }

  function AllCodes(gs: seq<Grant>): seq<string> {
    if gs == [] then [] else AllCodes(gs[..|gs| - 1]) + gs[|gs| - 1].codes
  }

  // ---- conservation ----

  /** What one message grants is exactly what it takes off the front of the pool. */
  lemma TurnConserves(cfg: Setting, d: Disk, sender: string, said: Said, hint: Option<Platform>, w: Works)
    ensures var t := Advance(cfg, d, sender, said, hint, w); t.granted + PoolCodes(t.disk.pool) == PoolCodes(d.pool)
  {
    PopConserves(d.pool, cfg.perFinish, w);
    hide Pop;
  }

  lemma PopConserves(pool: Option<Pool>, n: nat, w: Works)
    ensures Pop(pool, n, w).1 + PoolCodes(Pop(pool, n, w).0) == PoolCodes(pool)
  {
  }

  /** Conservation: over all senders, messages, polls and refills, and whichever reads and saves fail, the
      codes handed out in order followed by the codes still in the pool are exactly the codes supplied. */
  lemma {:induction false} CodesAreConserved(cfg: Setting, pool: Option<Pool>, evs: seq<Event>)
    ensures var s := Run(cfg, Start(pool), evs); AllCodes(s.grants) + PoolCodes(s.disk.pool) == s.supplied
  {
    hide Advance, CheckLow;
    if evs != [] {
      var front, last := evs[..|evs| - 1], evs[|evs| - 1];
      var s, next := Run(cfg, Start(pool), front), Run(cfg, Start(pool), evs);
      CodesAreConserved(cfg, pool, front);
      match last {
        case Message(sender, said, hint, w) =>
          TurnConserves(cfg, s.disk, sender, said, hint, w);
          assert next.grants[..|s.grants|] == s.grants;
        case Poll(w) => PollKeepsCodes(s.disk.pool, cfg.lowThreshold, w);
        case Fed(codes) =>
      }
    }
  }

  lemma PollKeepsCodes(pool: Option<Pool>, threshold: int, w: Works)
    ensures PoolCodes(CheckLow(pool, threshold, w).0) == PoolCodes(pool)
  {
  }

  ghost predicate Distinct(cs: seq<string>) {
    forall i, j :: 0 <= i < j < |cs| ==> cs[i] != cs[j]
  }

  lemma {:induction false} GrantInside(gs: seq<Grant>, i: nat, c: string)
    requires i < |gs| && c in gs[i].codes
    ensures c in AllCodes(gs)
  {
    if i < |gs| - 1 {
      GrantInside(gs[..|gs| - 1], i, c);
    }
  }

  lemma {:induction false} GrantsApart(gs: seq<Grant>, i: nat, j: nat, c: string)
    requires Distinct(AllCodes(gs)) && i < j < |gs|
    ensures !(c in gs[i].codes && c in gs[j].codes)
  {
    var front, last := gs[..|gs| - 1], gs[|gs| - 1];
    var all := AllCodes(front);
    assert AllCodes(gs) == all + last.codes;
    assert Distinct(all) by {
      assert forall a, b :: 0 <= a < b < |all| ==> AllCodes(gs)[a] == all[a] && AllCodes(gs)[b] == all[b];
    }
    forall a, b | 0 <= a < |all| && 0 <= b < |last.codes| ensures all[a] != last.codes[b] {
      assert AllCodes(gs)[a] == all[a] && AllCodes(gs)[|all| + b] == last.codes[b];
    }
    if j < |gs| - 1 {
      GrantsApart(front, i, j, c);
    } else if c in gs[i].codes {
      GrantInside(front, i, c);
    }
  }

  /** No code leaves twice: if the supplied codes are all different, two grants never share one. */
  lemma NoCodeLeavesTwice(cfg: Setting, pool: Option<Pool>, evs: seq<Event>, i: nat, j: nat, c: string)
    requires var s := Run(cfg, Start(pool), evs);
             Distinct(s.supplied) && i < |s.grants| && j < |s.grants| && c in s.grants[i].codes && c in s.grants[j].codes
    ensures i == j
  {
    var s := Run(cfg, Start(pool), evs);
    CodesAreConserved(cfg, pool, evs);
    var all := AllCodes(s.grants);
    assert forall k :: 0 <= k < |all| ==> s.supplied[k] == all[k];
    if i < j {
      GrantsApart(s.grants, i, j, c);
    } else if j < i {
      GrantsApart(s.grants, j, i, c);
    }
  }

  // ---- who sees a code ----

  ghost predicate WasGranted(gs: seq<Grant>, sender: string, codes: seq<string>) {
    exists i :: 0 <= i < |gs| && gs[i] == Grant(sender, codes)
  }

  ghost predicate RecordsAreGrants(s: World) {
    forall u :: u in s.disk.users && s.disk.users[u].codes != [] ==> WasGranted(s.grants, u, s.disk.users[u].codes)
  }

  lemma TurnIsGranted(cfg: Setting, d: Disk, sender: string, said: Said, hint: Option<Platform>, w: Works)
    ensures var t := Advance(cfg, d, sender, said, hint, w);
            && (t.reply.Completed? && t.reply.codes != [] ==>
                  t.reply.codes == t.granted || (sender in d.users && t.reply.codes == d.users[sender].codes))
            && (forall u :: u in t.disk.users && u != sender ==> u in d.users && t.disk.users[u] == d.users[u])
            && (sender in t.disk.users && t.disk.users[sender].codes != [] ==>
                  t.disk.users[sender].codes == t.granted
                  || (sender in d.users && t.disk.users[sender].codes == d.users[sender].codes))
  {
  }

  lemma WasGrantedLater(gs: seq<Grant>, g: Grant, sender: string, codes: seq<string>)
    requires WasGranted(gs, sender, codes)
    ensures WasGranted(gs + [g], sender, codes)
  {
    var i :| 0 <= i < |gs| && gs[i] == Grant(sender, codes);
    assert (gs + [g])[i] == Grant(sender, codes);
  }

  lemma {:induction false} RecordsStayGrants(cfg: Setting, pool: Option<Pool>, evs: seq<Event>)
    ensures RecordsAreGrants(Run(cfg, Start(pool), evs))
  {
    hide Advance, WasGranted;
    if evs != [] {
      var front, last := evs[..|evs| - 1], evs[|evs| - 1];
      var s, next := Run(cfg, Start(pool), front), Run(cfg, Start(pool), evs);
      RecordsStayGrants(cfg, pool, front);
      if last.Message? {
        var t := Advance(cfg, s.disk, last.sender, last.said, last.hint, last.works);
        var g := Grant(last.sender, t.granted);
        TurnIsGranted(cfg, s.disk, last.sender, last.said, last.hint, last.works);
        forall u | u in next.disk.users && next.disk.users[u].codes != []
          ensures WasGranted(s.grants + [g], u, next.disk.users[u].codes)
        {
          if u in s.disk.users && next.disk.users[u].codes == s.disk.users[u].codes {
            WasGrantedLater(s.grants, g, u, next.disk.users[u].codes);
          } else {
            LastGrant(s.grants, g);
          }
        }
      }
    }
  }

  lemma LastGrant(gs: seq<Grant>, g: Grant)
    ensures WasGranted(gs + [g], g.sender, g.codes)
  {
    assert (gs + [g])[|gs|] == g;
  }

  /** Codes are shown only to the sender they left the pool for: whatever codes a reply contains, fresh or
      repeated, are one grant to that very sender. */
  lemma RepliesShowOwnGrants(cfg: Setting, pool: Option<Pool>, evs: seq<Event>,
                             sender: string, said: Said, hint: Option<Platform>, w: Works)
    ensures var s := Run(cfg, Start(pool), evs);
            var t := Advance(cfg, s.disk, sender, said, hint, w);
            t.reply.Completed? && t.reply.codes != []
            ==> WasGranted(Step(cfg, s, Message(sender, said, hint, w)).grants, sender, t.reply.codes)
  {
    var s := Run(cfg, Start(pool), evs);
    var t := Advance(cfg, s.disk, sender, said, hint, w);
    RecordsStayGrants(cfg, pool, evs);
    TurnIsGranted(cfg, s.disk, sender, said, hint, w);
    hide Advance, WasGranted;
    if t.reply.Completed? && t.reply.codes != [] {
      if t.reply.codes == t.granted {
        LastGrant(s.grants, Grant(sender, t.granted));
      } else {
        WasGrantedLater(s.grants, Grant(sender, t.granted), sender, t.reply.codes);
      }
    }
  }

  // ---- progress ----

  /** How many answers to NEXT a record is away from the end of the tour. */
  function ToGo(r: Rec): int {
    if r.step >= COMPLETE then 0
    else if r.step == PWA_MOBILE then 1
    else if r.step == PLATFORM then (if r.asks >= 1 then 2 else 3)
    else 6 - r.step
  }

  predicate StateWorks(w: Works) {
    w.stateReads && w.stateSaves
  }

  /** One message while the state file works: nobody's step goes back, nobody's codes change once there
      are some, nobody gets further from the end, and the sender of a NEXT gets closer. */
  lemma TurnProgresses(cfg: Setting, d: Disk, sender: string, said: Said, hint: Option<Platform>, w: Works, u: string)
    requires StateWorks(w) && u in d.users
    ensures var t := Advance(cfg, d, sender, said, hint, w);
            && u in t.disk.users
            && t.disk.users[u].step >= d.users[u].step
            && (d.users[u].codes != [] && d.users[u].step >= COMPLETE ==> t.disk.users[u].codes == d.users[u].codes)
            && ToGo(t.disk.users[u]) <= ToGo(d.users[u])
            && (u == sender && said.word == Next && ToGo(d.users[u]) > 0 ==> ToGo(t.disk.users[u]) < ToGo(d.users[u]))
            && (d.users[u].step < COMPLETE && t.disk.users[u].step < COMPLETE ==> t.disk.users[u].codes == d.users[u].codes)
  {
  }

  predicate AllStateWorks(evs: seq<Event>) {
    forall i :: 0 <= i < |evs| && evs[i].Message? ==> StateWorks(evs[i].works)
  }

  function NextsFrom(evs: seq<Event>, u: string): nat {
    if evs == [] then 0
    else
      var last := evs[|evs| - 1];
      NextsFrom(evs[..|evs| - 1], u) + (if last.Message? && last.sender == u && last.said.word == Next then 1 else 0)
  }

  /** Codes are only ever recorded at the end of the tour. */
  ghost predicate CodesOnlyAtEnd(d: Disk) {
    forall u :: u in d.users && d.users[u].codes != [] ==> d.users[u].step >= COMPLETE
  }

  lemma {:induction false} CodesComeAtEnd(cfg: Setting, pool: Option<Pool>, evs: seq<Event>)
    ensures CodesOnlyAtEnd(Run(cfg, Start(pool), evs).disk)
  {
    if evs != [] {
      CodesComeAtEnd(cfg, pool, evs[..|evs| - 1]);
    }
  }

  /** Over any stretch of a run in which the state file works, interleaved with any messages of other
      senders, polls and refills: a sender's step never decreases, codes once recorded never change, and
      every NEXT counts towards the end. */
  lemma {:induction false} RunProgresses(cfg: Setting, pool: Option<Pool>, before: seq<Event>, evs: seq<Event>, u: string)
    requires AllStateWorks(evs) && u in Run(cfg, Start(pool), before).disk.users
    ensures var s := Run(cfg, Start(pool), before); var e := Run(cfg, s, evs);
            && u in e.disk.users && CodesOnlyAtEnd(e.disk)
            && e.disk.users[u].step >= s.disk.users[u].step
            && (s.disk.users[u].codes != [] ==> e.disk.users[u].codes == s.disk.users[u].codes)
            && (ToGo(e.disk.users[u]) == 0 || ToGo(e.disk.users[u]) + NextsFrom(evs, u) <= ToGo(s.disk.users[u]))
  {
    var s := Run(cfg, Start(pool), before);
    CodesComeAtEnd(cfg, pool, before);
    if evs != [] {
      var front, last := evs[..|evs| - 1], evs[|evs| - 1];
      RunProgresses(cfg, pool, before, front, u);
      var m := Run(cfg, s, front);
      if last.Message? {
        StepKeepsCodesAtEnd(cfg, m, last);
        TurnProgresses(cfg, m.disk, last.sender, last.said, last.hint, last.works, u);
      }
      hide Advance;
    }
  }

  lemma StepKeepsCodesAtEnd(cfg: Setting, s: World, ev: Event)
    requires CodesOnlyAtEnd(s.disk)
    ensures CodesOnlyAtEnd(Step(cfg, s, ev).disk)
  {
  }

  /** Six NEXT after the first contact complete the tour, whatever else is said in between and by whom. */
  lemma SixNextsComplete(cfg: Setting, pool: Option<Pool>, before: seq<Event>, evs: seq<Event>, u: string)
    requires AllStateWorks(evs) && u in Run(cfg, Start(pool), before).disk.users && NextsFrom(evs, u) >= 6
    ensures var e := Run(cfg, Run(cfg, Start(pool), before), evs); u in e.disk.users && e.disk.users[u].step >= COMPLETE
  {
    RunProgresses(cfg, pool, before, evs, u);
  }

  // ---- issued once ----

  /** A message that forgets nobody: a state that could not be read is not written back, and a grant is
      recorded. */
  ghost predicate Remembers(cfg: Setting, s: World, ev: Event) {
    ev.Message? ==>
      && (ev.works.stateReads || !ev.works.stateSaves)
      && (Advance(cfg, s.disk, ev.sender, ev.said, ev.hint, ev.works).granted != [] ==> ev.works.stateSaves)
  }

  ghost predicate AllRemember(cfg: Setting, pool: Option<Pool>, evs: seq<Event>) {
    forall i :: 0 <= i < |evs| ==> Remembers(cfg, Run(cfg, Start(pool), evs[..i]), evs[i])
  }

  lemma AllRememberFront(cfg: Setting, pool: Option<Pool>, evs: seq<Event>)
    requires AllRemember(cfg, pool, evs) && evs != []
    ensures AllRemember(cfg, pool, evs[..|evs| - 1])
    ensures Remembers(cfg, Run(cfg, Start(pool), evs[..|evs| - 1]), evs[|evs| - 1])
  {
    hide Remembers, Run;
    var front := evs[..|evs| - 1];
    forall i | 0 <= i < |front| ensures Remembers(cfg, Run(cfg, Start(pool), front[..i]), front[i]) {
      assert front[..i] == evs[..i];
    }
  }

  /** Working files are enough for that, though not necessary: failing reads without saves, and failing
      saves that lose no grant, do no harm. */
  lemma WorkingFilesRemember(cfg: Setting, pool: Option<Pool>, evs: seq<Event>)
    requires AllStateWorks(evs)
    ensures AllRemember(cfg, pool, evs)
  {
    hide Advance, Run;
  }

  predicate OnRecord(d: Disk, u: string) {
    u in d.users && d.users[u].codes != []
  }

  /** What a message does to records that have codes, exactly. A state that cannot be read but can be
      written is replaced by one in which only the sender is known, as a newcomer; otherwise everybody's
      codes stay. */
  lemma ForgottenIff(cfg: Setting, d: Disk, sender: string, said: Said, hint: Option<Platform>, w: Works, u: string)
    requires CodesOnlyAtEnd(d) && OnRecord(d, u)
    ensures var t := Advance(cfg, d, sender, said, hint, w);
            && (OnRecord(t.disk, u) <==> w.stateReads || !w.stateSaves)
            && (OnRecord(t.disk, u) ==> t.disk.users[u].codes == d.users[u].codes)
            && (!w.stateReads && w.stateSaves ==> t.disk.users == map[sender := Rec(WELCOME, [], None, 0)])
  {
  }

  /** A message that grants codes, sent again with working files, grants different ones if and only if the
      first grant was not saved and the pool has any left. */
  lemma RepeatGrantsIff(cfg: Setting, d: Disk, sender: string, said: Said, hint: Option<Platform>, w: Works, again: Works)
    requires cfg.perFinish > 0 && again == Works(true, true, true, true)
    requires CodesOnlyAtEnd(d) && Advance(cfg, d, sender, said, hint, w).granted != []
    ensures var first := Advance(cfg, d, sender, said, hint, w);
            var second := Advance(cfg, first.disk, sender, said, hint, again);
            second.granted != [] <==> !w.stateSaves && PoolCodes(first.disk.pool) != []
  {
  }

  /** A grant needs a record without codes, and is then on record if it was saved. */
  lemma GrantIsRecorded(cfg: Setting, s: World, ev: Event)
    requires ev.Message? && CodesOnlyAtEnd(s.disk) && Remembers(cfg, s, ev)
    ensures var t := Advance(cfg, s.disk, ev.sender, ev.said, ev.hint, ev.works);
            && (t.granted != [] ==> !OnRecord(s.disk, ev.sender) && OnRecord(t.disk, ev.sender))
            && forall u :: OnRecord(s.disk, u) ==> OnRecord(t.disk, u)
  {
    var t := Advance(cfg, s.disk, ev.sender, ev.said, ev.hint, ev.works);
    forall u | OnRecord(s.disk, u) ensures OnRecord(t.disk, u) {
      ForgottenIff(cfg, s.disk, ev.sender, ev.said, ev.hint, ev.works, u);
    }
  }

  /** Everyone who was ever granted codes has them on record. */
  ghost predicate GrantsAreRecorded(s: World) {
    forall i :: 0 <= i < |s.grants| && s.grants[i].codes != [] ==> OnRecord(s.disk, s.grants[i].sender)
  }

  lemma {:induction false} GrantsStayRecorded(cfg: Setting, pool: Option<Pool>, evs: seq<Event>)
    requires AllRemember(cfg, pool, evs)
    ensures GrantsAreRecorded(Run(cfg, Start(pool), evs))
  {
    hide Advance, Remembers, AllRemember, OnRecord;
    if evs != [] {
      var front, last := evs[..|evs| - 1], evs[|evs| - 1];
      var s := Run(cfg, Start(pool), front);
      AllRememberFront(cfg, pool, evs);
      GrantsStayRecorded(cfg, pool, front);
      CodesComeAtEnd(cfg, pool, front);
      if last.Message? {
        GrantIsRecorded(cfg, s, last);
      } else {
        OthersKeepUsers(cfg, s, last);
        assert forall u :: OnRecord(s.disk, u) <==> OnRecord(Step(cfg, s, last).disk, u) by {
          SameUsersSameRecords(s.disk, Step(cfg, s, last).disk);
        }
      }
    }
  }

  lemma OthersKeepUsers(cfg: Setting, s: World, ev: Event)
    requires !ev.Message?
    ensures Step(cfg, s, ev).disk.users == s.disk.users && Step(cfg, s, ev).grants == s.grants
  {
  }

  lemma SameUsersSameRecords(a: Disk, b: Disk)
    requires a.users == b.users
    ensures forall u :: OnRecord(a, u) <==> OnRecord(b, u)
  {
  }

  /** As long as nothing is forgotten, no sender is issued codes twice. */
  lemma {:induction false} IssuedOnce(cfg: Setting, pool: Option<Pool>, evs: seq<Event>, i: nat, j: nat)
    requires AllRemember(cfg, pool, evs)
    requires var gs := Run(cfg, Start(pool), evs).grants;
             i < j < |gs| && gs[i].sender == gs[j].sender && gs[i].codes != []
    ensures Run(cfg, Start(pool), evs).grants[j].codes == []
  {
    hide Advance, Remembers, AllRemember, OnRecord, CheckLow;
    var front, last := evs[..|evs| - 1], evs[|evs| - 1];
    var s := Run(cfg, Start(pool), front);
    AllRememberFront(cfg, pool, evs);
    if j < |s.grants| {
      IssuedOnce(cfg, pool, front, i, j);
    } else {
      GrantsStayRecorded(cfg, pool, front);
      CodesComeAtEnd(cfg, pool, front);
      GrantIsRecorded(cfg, s, last);
    }
  }

  // ---- issued again ----

  /** Some message of `evs`, starting in `s`, grants codes to `u`. */
  ghost predicate IssuesTo(cfg: Setting, s: World, evs: seq<Event>, u: string) {
    exists k :: |s.grants| <= k < |Run(cfg, s, evs).grants| && Run(cfg, s, evs).grants[k].sender == u
                && Run(cfg, s, evs).grants[k].codes != []
  }

  /** While the state file works, somebody whose codes are on record gets no more. */
  lemma {:induction false} NoMoreOnRecord(cfg: Setting, s: World, evs: seq<Event>, u: string)
    requires AllStateWorks(evs) && CodesOnlyAtEnd(s.disk) && OnRecord(s.disk, u)
    ensures !IssuesTo(cfg, s, evs, u)
    ensures OnRecord(Run(cfg, s, evs).disk, u) && CodesOnlyAtEnd(Run(cfg, s, evs).disk)
    ensures |Run(cfg, s, evs).grants| >= |s.grants|
  {
    hide Advance, OnRecord, CodesOnlyAtEnd, CheckLow;
    if evs != [] {
      var front, last := evs[..|evs| - 1], evs[|evs| - 1];
      NoMoreOnRecord(cfg, s, front, u);
      var m := Run(cfg, s, front);
      StepKeepsCodesAtEnd(cfg, m, last);
      if last.Message? {
        WorkingRemembers(cfg, m, last);
        GrantIsRecorded(cfg, m, last);
      } else {
        OthersKeepUsers(cfg, m, last);
        SameUsersSameRecords(m.disk, Step(cfg, m, last).disk);
      }
    }
  }

  lemma WorkingRemembers(cfg: Setting, s: World, ev: Event)
    requires ev.Message? && StateWorks(ev.works)
    ensures Remembers(cfg, s, ev)
  {
    hide Advance;
  }

  const ALL_WORK := Works(true, true, true, true)

  /** NEXT from somebody known to sit at a computer, and the word that asks for codes. */
  function NextFrom(u: string): Event {
    Message(u, Said(Next, None), Some(Desktop), ALL_WORK)
  }

  function CodesFrom(u: string): Event {
    Message(u, Said(Codes, None), None, ALL_WORK)
  }

  /** How many NEXT from a computer a sender without codes is away from a grant; 0 after the tour. */
  function Away(d: Disk, u: string): nat {
    if u !in d.users then 4
    else if d.users[u].step >= COMPLETE then 0
    else if d.users[u].step == WELCOME then 3
    else if d.users[u].step == 1 then 2
    else 1
  }

  lemma OneCloser(cfg: Setting, s: World, u: string)
    requires cfg.perFinish > 0 && PoolCodes(s.disk.pool) != [] && CodesOnlyAtEnd(s.disk) && !OnRecord(s.disk, u)
    ensures var t := Advance(cfg, s.disk, u, Said(Next, None), Some(Desktop), ALL_WORK);
            && (Away(s.disk, u) == 1 ==> t.granted != [])
            && (Away(s.disk, u) > 1 ==>
                  && t.granted == [] && t.disk.pool == s.disk.pool && CodesOnlyAtEnd(t.disk) && !OnRecord(t.disk, u)
                  && Away(t.disk, u) == Away(s.disk, u) - 1)
    ensures Away(s.disk, u) == 0 ==> Advance(cfg, s.disk, u, Said(Codes, None), None, ALL_WORK).granted != []
  {
  }

  lemma {:induction false} RunFromFront(cfg: Setting, s: World, first: Event, rest: seq<Event>)
    ensures Run(cfg, s, [first] + rest) == Run(cfg, Step(cfg, s, first), rest)
  {
    hide Step;
    var all := [first] + rest;
    if rest == [] {
      assert all == [first] && [first][..0] == [];
      assert Run(cfg, s, [first]) == Step(cfg, Run(cfg, s, []), first);
    } else {
      RunFromFront(cfg, s, first, rest[..|rest| - 1]);
      assert all[..|all| - 1] == [first] + rest[..|rest| - 1];
    }
  }

  lemma GrantAtOnce(cfg: Setting, s: World, ev: Event)
    requires ev.Message? && Advance(cfg, s.disk, ev.sender, ev.said, ev.hint, ev.works).granted != []
    ensures IssuesTo(cfg, s, [ev], ev.sender)
  {
    hide Advance;
    assert [ev][..0] == [] && Run(cfg, s, []) == s;
    assert Run(cfg, s, [ev]) == Step(cfg, s, ev);
    assert Run(cfg, s, [ev]).grants[|s.grants|].sender == ev.sender;
  }

  /** Without codes on record and with codes in the pool, a few messages with working files bring a grant. */
  lemma {:induction false} CanBeIssued(cfg: Setting, s: World, u: string) returns (evs: seq<Event>)
    requires cfg.perFinish > 0 && PoolCodes(s.disk.pool) != [] && CodesOnlyAtEnd(s.disk) && !OnRecord(s.disk, u)
    ensures AllStateWorks(evs) && IssuesTo(cfg, s, evs, u)
    decreases Away(s.disk, u)
  {
    OneCloser(cfg, s, u);
    hide Advance, OnRecord, CodesOnlyAtEnd, IssuesTo, Run;
    if Away(s.disk, u) == 0 {
      evs := [CodesFrom(u)];
      GrantAtOnce(cfg, s, CodesFrom(u));
    } else if Away(s.disk, u) == 1 {
      evs := [NextFrom(u)];
      GrantAtOnce(cfg, s, NextFrom(u));
    } else {
      var rest := CanBeIssued(cfg, Step(cfg, s, NextFrom(u)), u);
      evs := [NextFrom(u)] + rest;
      RunFromFront(cfg, s, NextFrom(u), rest);
      LaterGrant(cfg, s, NextFrom(u), rest, u);
    }
  }

  lemma LaterGrant(cfg: Setting, s: World, first: Event, rest: seq<Event>, u: string)
    requires first.Message? && IssuesTo(cfg, Step(cfg, s, first), rest, u)
    requires Run(cfg, s, [first] + rest) == Run(cfg, Step(cfg, s, first), rest)
    ensures IssuesTo(cfg, s, [first] + rest, u)
  {
    hide Advance;
  }

  /** Whether somebody can be issued codes by messages with working files, exactly: as long as the pool has
      codes, if and only if none are on record. So codes once issued can be issued again precisely when the
      record of them was not saved or was overwritten. */
  lemma ReissueIff(cfg: Setting, pool: Option<Pool>, before: seq<Event>, u: string)
    requires cfg.perFinish > 0 && PoolCodes(Run(cfg, Start(pool), before).disk.pool) != []
    ensures var s := Run(cfg, Start(pool), before);
            (exists evs :: AllStateWorks(evs) && IssuesTo(cfg, s, evs, u)) <==> !OnRecord(s.disk, u)
  {
    CodesComeAtEnd(cfg, pool, before);
    hide Run, OnRecord, IssuesTo, CodesOnlyAtEnd, AllStateWorks;
    var s := Run(cfg, Start(pool), before);
    if OnRecord(s.disk, u) {
      forall evs | AllStateWorks(evs) ensures !IssuesTo(cfg, s, evs, u) {
        NoMoreOnRecord(cfg, s, evs, u);
      }
    } else {
      var evs := CanBeIssued(cfg, s, u);
    }
  }

  // ---- low-pool alerts ----

  predicate AlertsAt(cfg: Setting, s: World, ev: Event) {
    ev.Poll? && CheckLow(s.disk.pool, cfg.lowThreshold, ev.works).1.Some?
  }

  /** A poll that finds the pool at or above the threshold. */
  predicate RefilledAt(cfg: Setting, s: World, ev: Event) {
    ev.Poll? && s.disk.pool.Some? && |s.disk.pool.value.codes| >= cfg.lowThreshold
  }

  predicate Marked(s: World) {
    s.disk.pool.Some? && s.disk.pool.value.lowAlerted
  }

  lemma MarkLasts(cfg: Setting, s: World, ev: Event)
    ensures AlertsAt(cfg, s, ev) ==> !Marked(s) && Marked(Step(cfg, s, ev))
    ensures Marked(s) && !RefilledAt(cfg, s, ev) ==> Marked(Step(cfg, s, ev))
  {
  }

  lemma {:induction false} MarkLastsRun(cfg: Setting, s: World, evs: seq<Event>)
    requires Marked(s) && forall k :: 0 <= k < |evs| ==> !RefilledAt(cfg, Run(cfg, s, evs[..k]), evs[k])
    ensures Marked(Run(cfg, s, evs))
  {
    if evs != [] {
      var front := evs[..|evs| - 1];
      forall k | 0 <= k < |front| ensures !RefilledAt(cfg, Run(cfg, s, front[..k]), front[k]) {
        assert front[..k] == evs[..k];
      }
      MarkLastsRun(cfg, s, front);
      MarkLasts(cfg, Run(cfg, s, front), evs[|evs| - 1]);
    }
  }

  /** Two low-pool alerts are always separated by a poll that found the pool at or above the threshold,
      whichever file operations fail in between. */
  lemma AlertsAreSeparated(cfg: Setting, s: World, first: Event, between: seq<Event>, second: Event)
    requires AlertsAt(cfg, s, first)
    requires AlertsAt(cfg, Run(cfg, Step(cfg, s, first), between), second)
    ensures exists k :: 0 <= k < |between| && RefilledAt(cfg, Run(cfg, Step(cfg, s, first), between[..k]), between[k])
  {
    MarkLasts(cfg, s, first);
    MarkLasts(cfg, Run(cfg, Step(cfg, s, first), between), second);
    if forall k :: 0 <= k < |between| ==> !RefilledAt(cfg, Run(cfg, Step(cfg, s, first), between[..k]), between[k]) {
      MarkLastsRun(cfg, Step(cfg, s, first), between);
    }
  }
}
