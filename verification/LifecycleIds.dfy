/** Who may know a session id: the bookkeeping every other lifecycle result rests on. */
module LifecycleIds {
  import opened Lifecycle

  predicate Reaping(pc: DropPc) {
    pc.ReapSeen? || pc.ReapDone?
  }

  // A drop that has claimed its session and not yet finished OnDrop.
  predicate Claimed(pc: DropPc) {
    pc.DropClaimed? || pc.DropFreeing? || pc.DropFreed? || pc.DropLast?
  }

  // A drop that follows a reap: the engine's map no longer has the kernel.
  predicate AfterReap(pc: DropPc) {
    pc.ReapDone? || ((pc.DropKnown? || pc.DropClaimed?) && pc.reaped)
  }

  // A kernel create owns its id: not listed, not a filesystem create, registered only from its
  // registration step on. A filesystem create that found its session gone is right for good, and
  // until it is over it is the only one to set the mount.
  predicate EntrySane(e: Entry) {
    && (e.create.Some? ==> e.session.None? && e.fs.None? && (e.create.value.KRegistered? || !e.resident))
    && (e.fs.Some? && e.fs.value.FsUnwind? ==> e.session.None?)
    && (e.fs.Some? && e.session.Some? ==> e.session.value.mount.None?)
    && (e.early ==> !e.resident && (e.create.Some? ==> e.create.value.KRegistered?))
  }

  // What a drop or reap thread can rely on while others run.
  predicate PcSane(e: Entry, pc: DropPc) {
    && (e.create.Some? ==> Reaping(pc) && e.create.value.KRegistered?)
    && (Claimed(pc) ==> e.session.None?)
    && (pc.DropKnown? && e.session.Some? ==> e.session.value.kernel == pc.kernel)
    && (AfterReap(pc) ==> !e.resident)
  }

  predicate IdSane(s: State, i: Sid) {
    i in s.ids ==> EntrySane(s.ids[i])
  }

  predicate DropSane(s: State, t: Tid) {
    t in s.drops ==> s.drops[t].sid in s.ids && PcSane(s.ids[s.drops[t].sid], s.drops[t])
  }

  ghost predicate Ids(s: State) {
    (forall i :: IdSane(s, i)) && (forall t :: DropSane(s, t))
  }

  // One entry is replaced and at most one thread moves or starts; everyone else only needs the
  // new entry to be no less sane than the old.
  lemma ReplaceEntry(s: State, s': State, sid: Sid, tid: Tid)
    requires Ids(s) && sid in s'.ids && s'.ids == s.ids[sid := s'.ids[sid]]
    requires EntrySane(s'.ids[sid])
    requires forall pc :: sid in s.ids && PcSane(s.ids[sid], pc) ==> PcSane(s'.ids[sid], pc)
    requires forall t :: t != tid && t in s'.drops ==> t in s.drops && s'.drops[t] == s.drops[t]
    requires tid in s'.drops ==>
      (|| (tid in s.drops && s'.drops[tid] == s.drops[tid])
       || (s'.drops[tid].sid == sid && PcSane(s'.ids[sid], s'.drops[tid])))
    ensures Ids(s')
  {
    forall i
      ensures IdSane(s', i)
    {
      assert IdSane(s, i);
    }
    forall t
      ensures DropSane(s', t)
    {
      assert DropSane(s, t);
    }
  }

  lemma BeginSane(s: State, a: Action)
    requires Ids(s)
    ensures Ids(BeginStep(s, a))
  {
    var s' := BeginStep(s, a);
    if a.CreateFilesystem? || a.CreateKernel? {
      if s'.ids != s.ids {
        ReplaceEntry(s, s', a.sid, 0);
      }
    } else if a.Drop? || a.Reap? {
      if s' != s {
        assert IdSane(s, a.sid);
        ReplaceEntry(s, s', a.sid, a.tid);
      }
    } else {
      assert forall i :: IdSane(s, i) ==> IdSane(s', i);
      assert forall t :: DropSane(s, t) ==> DropSane(s', t);
    }
  }

  lemma FsSane(s: State, sid: Sid, tid: Tid, ok: bool)
    requires Ids(s) && sid in s.ids && s.ids[sid].fs.Some? && tid !in s.drops
    ensures Ids(FsStep(s, sid, tid, ok))
  {
    assert IdSane(s, sid);
    ReplaceEntry(s, FsStep(s, sid, tid, ok), sid, tid);
  }

  lemma KernelSane(s: State, sid: Sid, ok: bool)
    requires Ids(s) && sid in s.ids && s.ids[sid].create.Some?
    ensures Ids(KernelStep(s, sid, ok))
  {
    assert IdSane(s, sid);
    ReplaceEntry(s, KernelStep(s, sid, ok), sid, 0);
  }

  lemma DropStepSane(s: State, tid: Tid, ok: bool)
    requires Ids(s) && tid in s.drops
    ensures s.drops[tid].sid in s.ids
    ensures Ids(DropStep(s, tid, ok))
  {
    assert DropSane(s, tid) && IdSane(s, s.drops[tid].sid);
    ReplaceEntry(s, DropStep(s, tid, ok), s.drops[tid].sid, tid);
  }

  lemma {:induction false} StepIds(s: State, a: Action)
    requires Ids(s)
    ensures Ids(Step(s, a))
  {
    match a {
      case GoFs(sid, tid, ok) =>
        if sid in s.ids && s.ids[sid].fs.Some? && tid !in s.drops {
          FsSane(s, sid, tid, ok);
        }
      case GoKernel(sid, ok) =>
        if sid in s.ids && s.ids[sid].create.Some? {
          KernelSane(s, sid, ok);
        }
      case GoDrop(tid, ok) =>
        if tid in s.drops {
          DropStepSane(s, tid, ok);
        }
      case _ => BeginSane(s, a);
    }
  }
}
