/**
 When a kernel can be reaped before its session is inserted: the lifecycle machine with a clock, the
 stamps NewKernel puts on a kernel before it waits for the harness, and Reap's own test.
 */
module LifecycleTiming {
  import opened Options
  import opened Lifecycle
  import opened LifecycleIds
  import opened LifecycleEngine
  import opened LifecycleRuns

  // startup: the longest time from the stamp to the insert of the session (awaitReady is bounded by
  // the start timeout, the insert by a lock).
  datatype Config = Config(idleTtl: nat, maxLifetime: nat, startup: nat)

  datatype Timed = Timed(
    s: State,
    clock: nat,
    stamp: map<Sid, nat>,   // createdAt and the first lastUsed
    dead: set<Sid>)         // markDead was called by a step

  datatype Event =
    | Tick(now: nat)
    | Stamp(sid: Sid)       // container attached, kernel object made
    | Kill(sid: Sid)        // a step loses its stream; it may outlive its session, but not precede it
    | Do(a: Action)

  // Started and not yet inserted.
  predicate Starting(s: State, sid: Sid) {
    sid in s.ids && s.ids[sid].create.Some? && (s.ids[sid].create.value.KSlot? || s.ids[sid].create.value.KRegistered?)
  }

  predicate OnTime(t: Timed, c: Config, now: nat) {
    forall i :: i in t.stamp && Starting(t.s, i) ==> now <= t.stamp[i] + c.startup
  }

  // Reap's test. Steps only move lastUsed forward, so being older than IdleTTL since the stamp is
  // necessary for being idle, and before the insert, when no step can run, also sufficient.
  predicate Reapable(t: Timed, c: Config, sid: Sid) {
    sid in t.dead || (sid in t.stamp && (t.clock - t.stamp[sid] > c.idleTtl || t.clock - t.stamp[sid] > c.maxLifetime))
  }

  // What the stamps and the test forbid.
  predicate Allowed(t: Timed, c: Config, a: Action) {
    match a
    case GoKernel(sid, ok) =>
      sid in t.s.ids && t.s.ids[sid].create.Some? && t.s.ids[sid].create.value.KSlot? && ok ==> sid in t.stamp
    case GoDrop(tid, ok) =>
      tid in t.s.drops && t.s.drops[tid].ReapSeen? && ok ==> Reapable(t, c, t.s.drops[tid].sid)
    case _ => true
  }

  function Advance(t: Timed, c: Config, e: Event): Timed {
    match e
    case Tick(now) => if t.clock <= now && OnTime(t, c, now) then t.(clock := now) else t
    case Stamp(sid) =>
      if Starting(t.s, sid) && t.s.ids[sid].create.value.KSlot? && sid !in t.stamp
      then t.(stamp := t.stamp[sid := t.clock]) else t
    case Kill(sid) => if sid in t.s.ids && t.s.ids[sid].create.None? then t.(dead := t.dead + {sid}) else t
    case Do(a) => if Allowed(t, c, a) then t.(s := Step(t.s, a)) else t
  }

  function Play(max: nat, c: Config, events: seq<Event>): Timed {
    if events == [] then Timed(Start(max), 0, map[], {})
    else Advance(Play(max, c, events[..|events| - 1]), c, events[|events| - 1])
  }

  // ------------------------------------------------------------------ a timed run is a run

  // The actions a timed run performs.
  function Performed(max: nat, c: Config, events: seq<Event>): seq<Action> {
    if events == [] then []
    else
      var front, e := events[..|events| - 1], events[|events| - 1];
      Performed(max, c, front) + (if e.Do? && Allowed(Play(max, c, front), c, e.a) then [e.a] else [])
  }

  lemma {:induction false} AdvanceSteps(t: Timed, c: Config, e: Event)
    ensures Advance(t, c, e).s == if e.Do? && Allowed(t, c, e.a) then Step(t.s, e.a) else t.s
  {
  }

  lemma {:induction false} TimedRunIsRun(max: nat, c: Config, events: seq<Event>)
    ensures Run(max, Performed(max, c, events)) == Play(max, c, events).s
    decreases |events|
  {
    if events != [] {
      var front, e := events[..|events| - 1], events[|events| - 1];
      var t := Play(max, c, front);
      TimedRunIsRun(max, c, front);
      AdvanceSteps(t, c, e);
      if e.Do? && Allowed(t, c, e.a) {
        OneMore(max, Performed(max, c, front), e.a);
      } else {
        assert Performed(max, c, events) == Performed(max, c, front);
      }
    }
  }

  lemma {:induction false} TimedIsGood(max: nat, c: Config, events: seq<Event>)
    ensures Good(Play(max, c, events).s)
  {
    TimedRunIsRun(max, c, events);
    EveryRunIsGood(max, Performed(max, c, events));
  }

  // ------------------------------------------------------------------ a quick start is safe

  // A reap that has taken the kernel out of the engine finds its create over.
  predicate ReapLate(t: Timed, tid: Tid) {
    tid in t.s.drops && t.s.drops[tid].ReapDone? && t.s.drops[tid].sid in t.s.ids ==>
      t.s.ids[t.s.drops[tid].sid].create.None?
  }

  predicate SidTimely(t: Timed, c: Config, i: Sid) {
    && (i in t.s.ids ==> !t.s.ids[i].early)
    && (i in t.dead ==> i in t.s.ids && t.s.ids[i].create.None?)
    && (i in t.stamp ==> i in t.s.ids && Stampable(t.s.ids[i]))
    && (i in t.stamp && Starting(t.s, i) ==> t.clock <= t.stamp[i] + c.startup)
    && (i in t.s.ids && t.s.ids[i].create.Some? && t.s.ids[i].create.value.KRegistered? ==> i in t.stamp)
  }

  // The container start has been reached.
  predicate Stampable(e: Entry) {
    e.create.Some? ==> !e.create.value.KLooked? && !e.create.value.KStart? && !e.create.value.KSlotRaw?
  }

  ghost predicate Timely(t: Timed, c: Config) {
    && Ids(t.s) && c.startup <= c.idleTtl && c.startup <= c.maxLifetime
    && (forall i :: SidTimely(t, c, i))
    && (forall tid :: ReapLate(t, tid))
  }

  // How one step changes what the timing is about.
  predicate CreateKept(s: State, s': State, i: Sid) {
    i in s.ids ==> i in s'.ids && s'.ids[i].create == s.ids[i].create && s'.ids[i].early == s.ids[i].early
  }

  lemma {:induction false} BeginKeeps(s: State, a: Action, i: Sid)
    ensures CreateKept(s, BeginStep(s, a), i)
    ensures i !in s.ids && i in BeginStep(s, a).ids ==>
              (var e := BeginStep(s, a).ids[i];
               !e.early && (e.create.Some? ==> e.create.value.KLooked? || e.create.value.KStart?))
  {
  }

  lemma {:induction false} FsKeeps(s: State, sid: Sid, tid: Tid, ok: bool, i: Sid)
    requires sid in s.ids && s.ids[sid].fs.Some? && tid !in s.drops
    ensures CreateKept(s, FsStep(s, sid, tid, ok), i)
    ensures FsStep(s, sid, tid, ok).ids.Keys == s.ids.Keys
  {
  }

  lemma {:induction false} DropKeeps(s: State, tid: Tid, ok: bool, i: Sid)
    requires tid in s.drops && s.drops[tid].sid in s.ids
    requires s.drops[tid].ReapDone? ==> s.ids[s.drops[tid].sid].create.None?
    ensures CreateKept(s, DropStep(s, tid, ok), i)
    ensures DropStep(s, tid, ok).ids.Keys == s.ids.Keys
  {
  }

  lemma {:induction false} KernelTimely(t: Timed, c: Config, sid: Sid, ok: bool, i: Sid)
    requires Timely(t, c) && Allowed(t, c, GoKernel(sid, ok)) && sid in t.s.ids && t.s.ids[sid].create.Some?
    ensures SidTimely(t.(s := KernelStep(t.s, sid, ok)), c, i)
  {
    assert SidTimely(t, c, i) && SidTimely(t, c, sid);
  }

  lemma {:induction false} DoTimely(t: Timed, c: Config, a: Action, i: Sid)
    requires Timely(t, c) && Allowed(t, c, a)
    ensures SidTimely(t.(s := Step(t.s, a)), c, i)
  {
    assert SidTimely(t, c, i);
    match a {
      case GoFs(sid, tid, ok) =>
        if sid in t.s.ids && t.s.ids[sid].fs.Some? && tid !in t.s.drops {
          FsKeeps(t.s, sid, tid, ok, i);
        }
      case GoKernel(sid, ok) =>
        if sid in t.s.ids && t.s.ids[sid].create.Some? {
          KernelTimely(t, c, sid, ok, i);
        }
      case GoDrop(tid, ok) =>
        if tid in t.s.drops && t.s.drops[tid].sid in t.s.ids {
          assert ReapLate(t, tid);
          DropKeeps(t.s, tid, ok, i);
        }
      case _ => BeginKeeps(t.s, a, i);
    }
  }

  // The heart of it: a kernel still starting up is too young to be reaped.
  lemma {:induction false} StartingIsSpared(t: Timed, c: Config, tid: Tid)
    requires Timely(t, c) && tid in t.s.drops && t.s.drops[tid].ReapSeen? && Reapable(t, c, t.s.drops[tid].sid)
    ensures t.s.drops[tid].sid in t.s.ids && t.s.ids[t.s.drops[tid].sid].create.None?
  {
    assert DropSane(t.s, tid) && SidTimely(t, c, t.s.drops[tid].sid);
  }

  lemma {:induction false} DropLate(t: Timed, c: Config, tid: Tid, ok: bool, x: Tid)
    requires Timely(t, c) && Allowed(t, c, GoDrop(tid, ok)) && tid in t.s.drops && t.s.drops[tid].sid in t.s.ids
    ensures ReapLate(t.(s := DropStep(t.s, tid, ok)), x)
  {
    assert ReapLate(t, x) && ReapLate(t, tid);
    if t.s.drops[tid].ReapSeen? && ok {
      StartingIsSpared(t, c, tid);
    }
    if x in t.s.drops {
      DropKeeps(t.s, tid, ok, t.s.drops[x].sid);
    }
  }

  lemma {:induction false} DoLate(t: Timed, c: Config, a: Action, x: Tid)
    requires Timely(t, c) && Allowed(t, c, a)
    ensures ReapLate(t.(s := Step(t.s, a)), x)
  {
    assert ReapLate(t, x) && DropSane(t.s, x);
    match a {
      case GoFs(sid, tid, ok) =>
        if sid in t.s.ids && t.s.ids[sid].fs.Some? && tid !in t.s.drops && x in t.s.drops {
          FsKeeps(t.s, sid, tid, ok, t.s.drops[x].sid);
        }
      case GoKernel(sid, ok) =>
      case GoDrop(tid, ok) =>
        if tid in t.s.drops && t.s.drops[tid].sid in t.s.ids {
          DropLate(t, c, tid, ok, x);
        }
      case _ =>
        if x in t.s.drops {
          BeginKeeps(t.s, a, t.s.drops[x].sid);
        }
    }
  }

  lemma {:induction false} AdvanceTimely(t: Timed, c: Config, e: Event)
    requires Timely(t, c) && Ids(Advance(t, c, e).s)
    ensures Timely(Advance(t, c, e), c)
  {
    var t' := Advance(t, c, e);
    forall i
      ensures SidTimely(t', c, i)
    {
      assert SidTimely(t, c, i);
      if e.Do? && Allowed(t, c, e.a) {
        DoTimely(t, c, e.a, i);
      }
    }
    forall x
      ensures ReapLate(t', x)
    {
      assert ReapLate(t, x);
      if e.Do? && Allowed(t, c, e.a) {
        DoLate(t, c, e.a, x);
      }
    }
  }

  lemma {:induction false} EveryRunIsTimely(max: nat, c: Config, events: seq<Event>)
    requires c.startup <= c.idleTtl && c.startup <= c.maxLifetime
    ensures Timely(Play(max, c, events), c)
    decreases |events|
  {
    TimedIsGood(max, c, events);
    if events != [] {
      EveryRunIsTimely(max, c, events[..|events| - 1]);
      AdvanceTimely(Play(max, c, events[..|events| - 1]), c, events[|events| - 1]);
    }
  }

  /** If no start-up outlasts IdleTTL or MaxLifetime, then at rest the engine's kernels and the
      manager's kernel sessions are the same. */
  lemma {:induction false} QuickStartsMatch(max: nat, c: Config, events: seq<Event>, i: Sid)
    requires c.startup <= c.idleTtl && c.startup <= c.maxLifetime
    requires AtRest(Play(max, c, events).s) && i in Play(max, c, events).s.ids
    ensures Play(max, c, events).s.ids[i].resident <==> KernelListed(Play(max, c, events).s.ids[i])
  {
    EveryRunIsTimely(max, c, events);
    assert SidTimely(Play(max, c, events), c, i);
    TimedRunIsRun(max, c, events);
    KernelsAtRest(max, Performed(max, c, events), i);
  }

  // ------------------------------------------------------------------ a slow one is not

  // The session is listed and keeps its slot, and no later Reap can see it.
  ghost predicate Stranded(s: State, i: Sid) {
    AtRest(s) && i in s.ids && KernelListed(s.ids[i]) && !s.ids[i].resident
  }

  ghost predicate Reachable(t: Timed, max: nat, c: Config) {
    exists events :: Play(max, c, events) == t
  }

  lemma {:induction false} Reaches(t: Timed, max: nat, c: Config, e: Event)
    requires Reachable(t, max, c)
    ensures Reachable(Advance(t, c, e), max, c)
  {
    var events :| Play(max, c, events) == t;
    assert (events + [e])[..|events|] == events;
    assert Play(max, c, events + [e]) == Advance(t, c, e);
  }

  // A machine with the one kernel create 0 in it, slot taken.
  function Scene(max: nat, e: Entry, drops: map<Tid, DropPc>): State {
    State(map[0 := e], drops, map[], {}, 1, 1, max)
  }

  function Creating(pc: KernelPc, resident: bool, early: bool): Entry {
    Entry(None, resident, None, Some(pc), early)
  }

  // Stamped at clock 0, and as late as a start-up can be.
  function Late(s: State, c: Config): Timed {
    Timed(s, c.startup, map[0 := 0], {})
  }

  lemma {:induction false} ReachesSlot(max: nat, c: Config)
    requires max >= 1
    ensures Reachable(Timed(Scene(max, Creating(KSlot(None), false, false), map[]), 0, map[], {}), max, c)
  {
    var t := Timed(Start(max), 0, map[], {});
    assert Play(max, c, []) == t;
    Reaches(t, max, c, Do(CreateKernel(0, None)));
    var t1 := t.(s := t.s.(ids := map[0 := Creating(KStart(None), false, false)]));
    assert Advance(t, c, Do(CreateKernel(0, None))) == t1;
    Reaches(t1, max, c, Do(GoKernel(0, true)));
    var t2 := t.(s := t.s.(ids := map[0 := Creating(KSlotRaw(None), false, false)], held := 1));
    assert Advance(t1, c, Do(GoKernel(0, true))) == t2;
    Reaches(t2, max, c, Do(GoKernel(0, true)));
  }

  lemma {:induction false} ReachesRegistered(max: nat, c: Config)
    requires max >= 1
    ensures Reachable(Late(Scene(max, Creating(KRegistered(None), true, false), map[]), c), max, c)
  {
    ReachesSlot(max, c);
    var t := Timed(Scene(max, Creating(KSlot(None), false, false), map[]), 0, map[], {});
    Reaches(t, max, c, Stamp(0));
    var t1 := t.(stamp := map[0 := 0]);
    assert Advance(t, c, Stamp(0)) == t1;
    Reaches(t1, max, c, Do(GoKernel(0, true)));
    var t2 := t1.(s := Scene(max, Creating(KRegistered(None), true, false), map[]));
    assert Advance(t1, c, Do(GoKernel(0, true))) == t2;
    Reaches(t2, max, c, Tick(c.startup));
  }

  lemma {:induction false} ReachesSeen(max: nat, c: Config)
    requires max >= 1
    ensures Reachable(Late(Scene(max, Creating(KRegistered(None), true, false), map[7 := ReapSeen(0)]), c), max, c)
  {
    ReachesRegistered(max, c);
    var t := Timed(Scene(max, Creating(KRegistered(None), true, false), map[]), c.startup, map[0 := 0], {});
    Reaches(t, max, c, Do(Reap(7, 0)));
    var t1 := t.(s := Scene(max, Creating(KRegistered(None), true, false), map[7 := ReapSeen(0)]));
    assert Advance(t, c, Do(Reap(7, 0))) == t1;
  }

  lemma {:induction false} ReachesReaped(max: nat, c: Config)
    requires max >= 1 && (c.startup > c.idleTtl || c.startup > c.maxLifetime)
    ensures Reachable(Late(Scene(max, Creating(KRegistered(None), false, true), map[]), c), max, c)
  {
    ReachesSeen(max, c);
    var t := Late(Scene(max, Creating(KRegistered(None), true, false), map[7 := ReapSeen(0)]), c);
    Reaches(t, max, c, Do(GoDrop(7, true)));
    var t2 := t.(s := Scene(max, Creating(KRegistered(None), false, false), map[7 := ReapDone(0)]));
    assert Advance(t, c, Do(GoDrop(7, true))) == t2;
    Reaches(t2, max, c, Do(GoDrop(7, true)));
    ReapFindsNothing(t2, max, c);
  }

  lemma {:induction false} ReapFindsNothing(t: Timed, max: nat, c: Config)
    requires t.s == Scene(max, Creating(KRegistered(None), false, false), map[7 := ReapDone(0)])
    ensures Advance(t, c, Do(GoDrop(7, true))) == t.(s := Scene(max, Creating(KRegistered(None), false, true), map[]))
  {
    assert t.s.drops - {7} == map[];
  }

  lemma {:induction false} SlowStartStrands(max: nat, c: Config)
    requires max >= 1 && (c.startup > c.idleTtl || c.startup > c.maxLifetime)
    ensures exists events :: Stranded(Play(max, c, events).s, 0)
  {
    ReachesReaped(max, c);
    var t := Timed(Scene(max, Creating(KRegistered(None), false, true), map[]), c.startup, map[0 := 0], {});
    Reaches(t, max, c, Do(GoKernel(0, true)));
    var s := Scene(max, Entry(Some(Session(true, None)), false, None, None, true), map[]);
    assert Advance(t, c, Do(GoKernel(0, true))).s == s;
    assert Stranded(s, 0);
    var events :| Play(max, c, events) == Advance(t, c, Do(GoKernel(0, true)));
  }

  /** A configuration can leave a kernel session without its kernel if and only if a start-up may
      outlast IdleTTL or MaxLifetime. */
  lemma {:induction false} StrandedExactlyWhen(max: nat, c: Config)
    requires max >= 1
    ensures (exists events, i :: Stranded(Play(max, c, events).s, i))
            <==> c.startup > c.idleTtl || c.startup > c.maxLifetime
  {
    if c.startup > c.idleTtl || c.startup > c.maxLifetime {
      SlowStartStrands(max, c);
    } else {
      forall events, i
        ensures !Stranded(Play(max, c, events).s, i)
      {
        if AtRest(Play(max, c, events).s) && i in Play(max, c, events).s.ids {
          QuickStartsMatch(max, c, events, i);
        }
      }
    }
  }
}
