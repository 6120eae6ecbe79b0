/**
 Deleting a volume while a create is attaching it: Attach looks the volume up before it takes the
 lock, and Delete refuses only what is held.
 */
module LifecycleDeletes {
  import opened Options
  import opened Lifecycle
  import opened LifecycleIds
  import opened LifecycleSlots
  import opened LifecycleHolds
  import opened LifecycleRuns
  import opened Handlers
  import Sums

  // A listed session has the volume mounted.
  predicate Mounts(s: State, i: Sid, v: Vid) {
    Listed(s, i) && s.ids[i].session.value.mount == Some(v)
  }

  // A create has the *Volume in hand and is about to take the lock; for a filesystem create its
  // session has to be there still.
  predicate Attaching(s: State, i: Sid, v: Vid) {
    i in s.ids && ((s.ids[i].fs == Some(FsLooked(v)) && s.ids[i].session.Some?) || s.ids[i].create == Some(KLooked(v)))
  }

  // ------------------------------------------------------------------ nobody attaching: never mounted

  // Neither mounted here, nor on its way to be.
  predicate Barred(e: Entry, v: Vid) {
    && (e.session.Some? ==> e.session.value.mount != Some(v))
    && (e.fs == Some(FsLooked(v)) || e.fs == Some(FsAttached(v)) || e.fs == Some(FsAuthed(v)) ==> e.session.None?)
    && (e.create.Some? ==> e.create.value != KLooked(v) && KernelVolume(e.create.value) != Some(v))
  }

  ghost predicate NoWay(s: State, v: Vid) {
    v !in s.indexed && v in s.holder && forall i :: i in s.ids ==> Barred(s.ids[i], v)
  }

  lemma {:induction false} BeginBars(s: State, a: Action, v: Vid)
    requires NoWay(s, v)
    ensures NoWay(BeginStep(s, a), v)
  {
  }

  lemma {:induction false} FsBars(s: State, sid: Sid, tid: Tid, ok: bool, v: Vid)
    requires NoWay(s, v) && Ids(s) && sid in s.ids && s.ids[sid].fs.Some? && tid !in s.drops
    ensures NoWay(FsStep(s, sid, tid, ok), v)
  {
    assert IdSane(s, sid) && Barred(s.ids[sid], v);
  }

  lemma {:induction false} KernelBars(s: State, sid: Sid, ok: bool, v: Vid)
    requires NoWay(s, v) && Ids(s) && sid in s.ids && s.ids[sid].create.Some?
    ensures NoWay(KernelStep(s, sid, ok), v)
  {
    assert IdSane(s, sid) && Barred(s.ids[sid], v);
  }

  lemma {:induction false} DropBars(s: State, tid: Tid, ok: bool, v: Vid)
    requires NoWay(s, v) && tid in s.drops && s.drops[tid].sid in s.ids
    ensures NoWay(DropStep(s, tid, ok), v)
  {
    assert Barred(s.ids[s.drops[tid].sid], v);
  }

  lemma {:induction false} StepBars(s: State, a: Action, v: Vid)
    requires NoWay(s, v) && Ids(s)
    ensures NoWay(Step(s, a), v)
  {
    match a {
      case GoFs(sid, tid, ok) =>
        if sid in s.ids && s.ids[sid].fs.Some? && tid !in s.drops {
          FsBars(s, sid, tid, ok, v);
        }
      case GoKernel(sid, ok) =>
        if sid in s.ids && s.ids[sid].create.Some? {
          KernelBars(s, sid, ok, v);
        }
      case GoDrop(tid, ok) =>
        if tid in s.drops && s.drops[tid].sid in s.ids {
          DropBars(s, tid, ok, v);
        }
      case _ => BeginBars(s, a, v);
    }
  }

  lemma {:induction false} StaysBarred(s: State, actions: seq<Action>, v: Vid)
    requires Good(s) && NoWay(s, v)
    ensures Good(Play(s, actions)) && NoWay(Play(s, actions), v)
    decreases |actions|
  {
    if actions != [] {
      var front, a := actions[..|actions| - 1], actions[|actions| - 1];
      StaysBarred(s, front, v);
      StepGood(Play(s, front), a);
      StepBars(Play(s, front), a, v);
    }
  }

  // A volume out of the index that nobody holds, and nobody is attaching.
  lemma {:induction false} UnheldIsBarred(s: State, v: Vid)
    requires Good(s) && v !in s.indexed && v in s.holder && s.holder[v] == None
    requires forall i :: !Attaching(s, i, v)
    ensures NoWay(s, v)
  {
    forall i | i in s.ids
      ensures Barred(s.ids[i], v)
    {
      assert ReliesSane(s, i, v) && !Attaching(s, i, v);
    }
  }

  // ------------------------------------------------------------------ somebody attaching: it can be

  ghost predicate Possible(s: State, v: Vid) {
    exists actions, i :: Mounts(Play(s, actions), i, v)
  }

  lemma {:induction false} PossibleLater(s: State, actions: seq<Action>, v: Vid)
    requires Possible(Play(s, actions), v)
    ensures Possible(s, v)
  {
    var more, i :| Mounts(Play(Play(s, actions), more), i, v);
    PlayOn(s, actions, more);
    assert Mounts(Play(s, actions + more), i, v);
  }

  lemma {:induction false} PossibleNow(s: State, i: Sid, v: Vid)
    requires Mounts(s, i, v)
    ensures Possible(s, v)
  {
    assert Mounts(Play(s, []), i, v);
  }

  lemma {:induction false} OneStep(s: State, a: Action)
    ensures Play(s, [a]) == Step(s, a)
  {
    PlayMore(s, [], a);
    assert [] + [a] == [a];
  }

  lemma {:induction false} FsMounts(s: State, i: Sid, v: Vid)
    requires v in s.holder && s.holder[v] == None
    requires i in s.ids && s.ids[i].fs == Some(FsLooked(v)) && s.ids[i].session.Some?
    ensures Possible(s, v)
  {
    var tid := Sums.Beyond(s.drops.Keys);
    var go := GoFs(i, tid, true);
    var s1 := Step(s, go);
    assert s1.ids[i] == s.ids[i].(fs := Some(FsAttached(v))) && s1.drops == s.drops;
    var s2 := Step(s1, go);
    assert s2.ids[i] == s.ids[i].(fs := Some(FsAuthed(v))) && s2.drops == s.drops;
    var s3 := Step(s2, go);
    PossibleNow(s3, i, v);
    OneStep(s2, go);
    PossibleLater(s2, [go], v);
    OneStep(s1, go);
    PossibleLater(s1, [go], v);
    OneStep(s, go);
    PossibleLater(s, [go], v);
  }

  // From here on a kernel create needs a slot and a start that succeeds.
  lemma {:induction false} KernelMounts(s: State, i: Sid, v: Vid)
    requires s.held < s.max && i in s.ids && s.ids[i].create == Some(KStart(Some(v)))
    ensures Possible(s, v)
  {
    var go := GoKernel(i, true);
    var s1 := Step(s, go);
    assert s1.ids[i] == s.ids[i].(create := Some(KSlotRaw(Some(v))));
    var s2 := Step(s1, go);
    assert s2.ids[i] == s.ids[i].(create := Some(KSlot(Some(v))));
    OneStep(s, go);
    OneStep(s1, go);
    SlotMounts(s2, i, v);
    PossibleLater(s1, [go], v);
    PossibleLater(s, [go], v);
  }

  lemma {:induction false} SlotMounts(s: State, i: Sid, v: Vid)
    requires i in s.ids && s.ids[i].create == Some(KSlot(Some(v)))
    ensures Possible(s, v)
  {
    var go := GoKernel(i, true);
    var s1 := Step(s, go);
    assert s1.ids[i] == s.ids[i].(create := Some(KRegistered(Some(v))), resident := true);
    OneStep(s, go);
    OneStep(s1, go);
    PossibleNow(Step(s1, go), i, v);
    PossibleLater(s1, [go], v);
    PossibleLater(s, [go], v);
  }

  // ------------------------------------------------------------------ a slot can always be freed

  // Some continuation frees a slot without touching what is under i.
  ghost predicate CanFree(s: State, i: Sid, e: Entry) {
    exists actions :: Freed(Play(s, actions), i, e, s.max)
  }

  predicate Freed(t: State, i: Sid, e: Entry, max: nat) {
    t.held < t.max && t.max == max && i in t.ids && t.ids[i] == e
  }

  lemma {:induction false} CanFreeLater(s: State, a: Action, i: Sid, e: Entry)
    requires CanFree(Step(s, a), i, e) && Step(s, a).max == s.max
    ensures CanFree(s, i, e)
  {
    var more :| Freed(Play(Step(s, a), more), i, e, s.max);
    OneStep(s, a);
    PlayOn(s, [a], more);
    assert Freed(Play(s, [a] + more), i, e, s.max);
  }

  lemma {:induction false} FreeNow(s: State, i: Sid)
    requires s.held < s.max && i in s.ids
    ensures CanFree(s, i, s.ids[i])
  {
    assert Freed(Play(s, []), i, s.ids[i], s.max);
  }

  lemma {:induction false} SessionFrees(s: State, i: Sid, j: Sid)
    requires s.held <= s.max && i in s.ids && i != j && Listed(s, j) && s.ids[j].session.value.kernel
    ensures CanFree(s, i, s.ids[i])
  {
    var tid := Sums.Beyond(s.drops.Keys);
    DestroyPlays(s, j, tid);
    assert Freed(Play(s, DestroyTrace(j, tid)), i, s.ids[i], s.max);
  }

  lemma {:induction false} DropFrees(s: State, i: Sid, tid: Tid)
    requires s.held <= s.max && i in s.ids && tid in s.drops && s.drops[tid].sid in s.ids && s.drops[tid].sid != i
    requires DropSlots(s.drops[tid]) == 1
    ensures CanFree(s, i, s.ids[i])
  {
    var go := GoDrop(tid, true);
    var s1 := Step(s, go);
    if s.drops[tid].DropFreeing? {
      FreeNow(s1, i);
    } else {
      assert s1.drops[tid] == DropFreeing(s.drops[tid].sid) && s1.ids[i] == s.ids[i];
      FreeNow(Step(s1, go), i);
      CanFreeLater(s1, go, i, s.ids[i]);
    }
    CanFreeLater(s, go, i, s.ids[i]);
  }

  lemma {:induction false} GiveBackFrees(s: State, i: Sid, j: Sid)
    requires s.held <= s.max && i in s.ids && i != j && j in s.ids
    requires s.ids[j].create.Some? && s.ids[j].create.value.KGiveBack?
    ensures CanFree(s, i, s.ids[i])
  {
    FreeNow(Step(s, GoKernel(j, true)), i);
    CanFreeLater(s, GoKernel(j, true), i, s.ids[i]);
  }

  lemma {:induction false} SlotFrees(s: State, i: Sid, j: Sid)
    requires s.held <= s.max && i in s.ids && i != j && j in s.ids
    requires s.ids[j].create.Some? && s.ids[j].create.value.KSlot?
    ensures CanFree(s, i, s.ids[i])
  {
    GiveBackFrees(Step(s, GoKernel(j, false)), i, j);
    CanFreeLater(s, GoKernel(j, false), i, s.ids[i]);
  }

  lemma {:induction false} CreateFrees(s: State, i: Sid, j: Sid)
    requires s.held <= s.max && i in s.ids && i != j && j in s.ids
    requires s.ids[j].create.Some? && s.ids[j].session.None? && EntrySlots(s.ids[j]) == 1
    ensures CanFree(s, i, s.ids[i])
  {
    var s1 := Step(s, GoKernel(j, true));
    var pc := s.ids[j].create.value;
    if pc.KGiveBack? {
      GiveBackFrees(s, i, j);
    } else if pc.KSlot? {
      SlotFrees(s, i, j);
    } else {
      if pc.KRegistered? {
        SessionFrees(s1, i, j);
      } else {
        SlotFrees(s1, i, j);
      }
      CanFreeLater(s, GoKernel(j, true), i, s.ids[i]);
    }
  }

  // Whoever has the slots, one of them can be made to give it back.
  lemma {:induction false} SlotsCanBeFreed(s: State, i: Sid)
    requires Good(s) && s.max >= 1 && i in s.ids && s.ids[i].create.Some? && EntrySlots(s.ids[i]) == 0
    ensures CanFree(s, i, s.ids[i])
  {
    assert IdSane(s, i);
    SlotsAreConserved(s);
    if s.held < s.max {
      FreeNow(s, i);
    } else if KernelSessions(s) != {} {
      var j :| j in KernelSessions(s);
      SessionFrees(s, i, j);
    } else if CreatesHolding(s) != {} {
      var j :| j in CreatesHolding(s);
      assert IdSane(s, j);
      CreateFrees(s, i, j);
    } else {
      assert DropsHolding(s) != {};
      var tid :| tid in DropsHolding(s);
      assert DropSane(s, tid);
      DropFrees(s, i, tid);
    }
  }

  lemma {:induction false} LookedUpMounts(s: State, i: Sid, v: Vid)
    requires Good(s) && s.max >= 1 && v in s.holder && s.holder[v] == None
    requires i in s.ids && s.ids[i].create == Some(KLooked(v))
    ensures Possible(s, v)
  {
    var go := GoKernel(i, true);
    var t := Step(s, go);
    assert t.ids[i] == s.ids[i].(create := Some(KStart(Some(v)))) && t.max == s.max;
    StepGood(s, go);
    assert IdSane(t, i);
    SlotsCanBeFreed(t, i);
    var actions :| Freed(Play(t, actions), i, t.ids[i], t.max);
    KernelMounts(Play(t, actions), i, v);
    PossibleLater(t, actions, v);
    OneStep(s, go);
    PossibleLater(s, [go], v);
  }

  // ------------------------------------------------------------------ exactly when

  lemma {:induction false} PossibleExactlyWhen(s: State, v: Vid)
    requires Good(s) && s.max >= 1 && v !in s.indexed && v in s.holder && s.holder[v] == None
    ensures Possible(s, v) <==> exists i :: Attaching(s, i, v)
  {
    if exists i :: Attaching(s, i, v) {
      var i :| Attaching(s, i, v);
      if s.ids[i].create == Some(KLooked(v)) {
        LookedUpMounts(s, i, v);
      } else {
        FsMounts(s, i, v);
      }
    } else {
      UnheldIsBarred(s, v);
      forall actions, i
        ensures !Mounts(Play(s, actions), i, v)
      {
        StaysBarred(s, actions, v);
      }
    }
  }

  lemma {:induction false} RunThenPlay(max: nat, a: seq<Action>, b: seq<Action>)
    ensures Run(max, a + b) == Play(Run(max, a), b)
    decreases |b|
  {
    if b == [] {
      assert a + b == a;
    } else {
      RunThenPlay(max, a, b[..|b| - 1]);
      assert (a + b)[..|a + b| - 1] == a + b[..|b| - 1];
    }
  }

  /** After a successful Delete of a volume some continuation has a listed session mount it, if and
      only if at that moment a create had looked it up and not yet taken the lock. */
  lemma {:induction false} DeletedIsMountedIff(max: nat, actions: seq<Action>, v: Vid)
    requires max >= 1
    requires var s := Run(max, actions); v in s.indexed && v in s.holder && s.holder[v] == None
    ensures (exists more, i :: Mounts(Run(max, actions + [DeleteVolume(v)] + more), i, v))
            <==> exists i :: Attaching(Run(max, actions), i, v)
  {
    var s := Run(max, actions);
    var t := Step(s, DeleteVolume(v));
    EveryRunIsGood(max, actions);
    StepGood(s, DeleteVolume(v));
    RunKeepsMax(max, actions);
    PossibleExactlyWhen(t, v);
    OneMore(max, actions, DeleteVolume(v));
    assert forall i :: Attaching(t, i, v) <==> Attaching(s, i, v);
    SamePossible(max, actions + [DeleteVolume(v)], v);
  }

  lemma {:induction false} SamePossible(max: nat, actions: seq<Action>, v: Vid)
    ensures Possible(Run(max, actions), v) <==> exists more, i :: Mounts(Run(max, actions + more), i, v)
  {
    var s := Run(max, actions);
    if Possible(s, v) {
      var more, i :| Mounts(Play(s, more), i, v);
      RunThenPlay(max, actions, more);
      assert Mounts(Run(max, actions + more), i, v);
    }
    if exists more, i :: Mounts(Run(max, actions + more), i, v) {
      var more, i :| Mounts(Run(max, actions + more), i, v);
      RunThenPlay(max, actions, more);
      assert Mounts(Play(s, more), i, v);
    }
  }

  lemma {:induction false} RunKeepsMax(max: nat, actions: seq<Action>)
    ensures Run(max, actions).max == max
    decreases |actions|
  {
    if actions != [] {
      RunKeepsMax(max, actions[..|actions| - 1]);
    }
  }

  // ------------------------------------------------------------------ the race itself

  function Racing(pc: Option<FsPc>, mount: Option<Vid>, indexed: bool, holder: Option<Sid>): State {
    State(map[1 := Entry(Some(Session(false, mount)), false, pc, None, false)], map[],
          map[0 := holder], if indexed then {0} else {}, 0, 0, 1)
  }

  const RACE := [NewVolume(0)] + [CreateFilesystem(1, Some(0))] + [GoFs(1, 9, true)] + [DeleteVolume(0)]
                + [GoFs(1, 9, true)] + [GoFs(1, 9, true)] + [GoFs(1, 9, true)]

  /** The delete falls between the create's lookup and its lock: at rest the session is listed with a
      volume mounted that is in nobody's index any more. */
  lemma {:induction false} DeleteRace()
    ensures var s := Run(1, RACE); AtRest(s) && Mounts(s, 1, 0) && 0 !in s.indexed
  {
    var a2 := [NewVolume(0)] + [CreateFilesystem(1, Some(0))];
    var a4 := a2 + [GoFs(1, 9, true)] + [DeleteVolume(0)];
    var a6 := a4 + [GoFs(1, 9, true)] + [GoFs(1, 9, true)];
    RaceBegins();
    OneMore(1, a2, GoFs(1, 9, true));
    OneMore(1, a2 + [GoFs(1, 9, true)], DeleteVolume(0));
    RaceDeletes();
    OneMore(1, a4, GoFs(1, 9, true));
    OneMore(1, a4 + [GoFs(1, 9, true)], GoFs(1, 9, true));
    OneMore(1, a6, GoFs(1, 9, true));
    RaceMounts();
    assert RACE == a6 + [GoFs(1, 9, true)];
  }

  lemma {:induction false} RaceBegins()
    ensures Run(1, [NewVolume(0)] + [CreateFilesystem(1, Some(0))]) == Racing(Some(FsCreated(0)), None, true, None)
  {
    OneMore(1, [], NewVolume(0));
    assert [] + [NewVolume(0)] == [NewVolume(0)];
    OneMore(1, [NewVolume(0)], CreateFilesystem(1, Some(0)));
  }

  lemma {:induction false} RaceDeletes()
    ensures Step(Step(Racing(Some(FsCreated(0)), None, true, None), GoFs(1, 9, true)), DeleteVolume(0))
            == Racing(Some(FsLooked(0)), None, false, None)
  {
    assert Step(Racing(Some(FsCreated(0)), None, true, None), GoFs(1, 9, true))
        == Racing(Some(FsLooked(0)), None, true, None);
  }

  lemma {:induction false} RaceAttaches()
    ensures Step(Racing(Some(FsLooked(0)), None, false, None), GoFs(1, 9, true))
         == Racing(Some(FsAttached(0)), None, false, Some(1))
  {
  }

  lemma {:induction false} RaceMounts()
    ensures var s := Racing(Some(FsLooked(0)), None, false, None);
            Step(Step(Step(s, GoFs(1, 9, true)), GoFs(1, 9, true)), GoFs(1, 9, true))
            == Racing(None, Some(0), false, Some(1))
  {
    var go := GoFs(1, 9, true);
    RaceAttaches();
    assert Step(Racing(Some(FsAttached(0)), None, false, Some(1)), go)
        == Racing(Some(FsAuthed(0)), None, false, Some(1));
  }
}
