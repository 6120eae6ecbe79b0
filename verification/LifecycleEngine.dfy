/** The engine's map of resident kernels against the manager's map of sessions. */
module LifecycleEngine {
  import opened Lifecycle
  import opened LifecycleIds

  predicate KernelListed(e: Entry) {
    e.session.Some? && e.session.value.kernel
  }

  predicate Kills(pc: DropPc, i: Sid) {
    pc.DropClaimed? && pc.kernel && !pc.reaped && pc.sid == i
  }

  predicate Reaps(pc: DropPc, i: Sid) {
    AfterReap(pc) && !pc.DropClaimed? && pc.sid == i
  }

  // A drop that has taken a kernel session out of the manager's map but not out of the engine's.
  ghost predicate BeingKilled(s: State, i: Sid) {
    exists t :: t in s.drops && Kills(s.drops[t], i)
  }

  // A reaper that has taken the kernel out and has yet to look up or claim the session.
  ghost predicate BeingReaped(s: State, i: Sid) {
    exists t :: t in s.drops && Reaps(s.drops[t], i)
  }

  predicate Started(e: Entry) {
    KernelListed(e) || (e.create.Some? && e.create.value.KRegistered?)
  }

  // A resident kernel has a session, or its create or its drop is between the two maps; and a
  // started kernel is resident unless it was reaped.
  ghost predicate EngineSane(s: State, i: Sid) {
    i in s.ids ==>
      && (s.ids[i].resident ==> Started(s.ids[i]) || BeingKilled(s, i))
      && (s.ids[i].resident && s.ids[i].session.Some? ==> KernelListed(s.ids[i]))
      && (Started(s.ids[i]) && !s.ids[i].resident ==> s.ids[i].early || BeingReaped(s, i))
  }

  ghost predicate Engine(s: State) {
    forall i :: EngineSane(s, i)
  }

  // Witnesses stay put unless they are the thread that moves.
  lemma WitnessesPersist(s: State, s': State, i: Sid)
    requires forall t :: t in s.drops && (Kills(s.drops[t], i) || Reaps(s.drops[t], i)) ==>
      t in s'.drops && s'.drops[t] == s.drops[t]
    ensures BeingKilled(s, i) ==> BeingKilled(s', i)
    ensures BeingReaped(s, i) ==> BeingReaped(s', i)
  {
  }

  lemma BeginEngine(s: State, a: Action, i: Sid)
    requires Engine(s)
    ensures EngineSane(BeginStep(s, a), i)
  {
    assert EngineSane(s, i);
    WitnessesPersist(s, BeginStep(s, a), i);
  }

  lemma FsEngine(s: State, sid: Sid, tid: Tid, ok: bool, i: Sid)
    requires Engine(s) && Ids(s) && sid in s.ids && s.ids[sid].fs.Some? && tid !in s.drops
    ensures EngineSane(FsStep(s, sid, tid, ok), i)
  {
    assert EngineSane(s, i) && IdSane(s, sid);
    WitnessesPersist(s, FsStep(s, sid, tid, ok), i);
  }

  lemma KernelEngine(s: State, sid: Sid, ok: bool, i: Sid)
    requires Engine(s) && Ids(s) && sid in s.ids && s.ids[sid].create.Some?
    ensures EngineSane(KernelStep(s, sid, ok), i)
  {
    assert EngineSane(s, i) && IdSane(s, sid);
    WitnessesPersist(s, KernelStep(s, sid, ok), i);
  }

  lemma DropEngine(s: State, tid: Tid, ok: bool, i: Sid)
    requires Engine(s) && Ids(s) && tid in s.drops && s.drops[tid].sid in s.ids
    ensures EngineSane(DropStep(s, tid, ok), i)
  {
    var s', pc := DropStep(s, tid, ok), s.drops[tid];
    assert EngineSane(s, i) && IdSane(s, pc.sid) && DropSane(s, tid);
    if !Kills(pc, i) && !Reaps(pc, i) {
      WitnessesPersist(s, s', i);
    }
    if tid in s'.drops {
      assert Kills(s'.drops[tid], i) ==> BeingKilled(s', i);
      assert Reaps(s'.drops[tid], i) ==> BeingReaped(s', i);
    }
  }

  lemma {:induction false} StepEngine(s: State, a: Action)
    requires Engine(s) && Ids(s)
    ensures Engine(Step(s, a))
  {
    forall i
      ensures EngineSane(Step(s, a), i)
    {
      assert EngineSane(s, i);
      match a {
        case GoFs(sid, tid, ok) =>
          if sid in s.ids && s.ids[sid].fs.Some? && tid !in s.drops {
            FsEngine(s, sid, tid, ok, i);
          }
        case GoKernel(sid, ok) =>
          if sid in s.ids && s.ids[sid].create.Some? {
            KernelEngine(s, sid, ok, i);
          }
        case GoDrop(tid, ok) =>
          if tid in s.drops && s.drops[tid].sid in s.ids {
            DropEngine(s, tid, ok, i);
          }
        case _ => BeginEngine(s, a, i);
      }
    }
  }
}
