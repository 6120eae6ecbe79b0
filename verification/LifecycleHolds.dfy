/** Read-write volume holds: never shared by two sessions, never left behind by one. */
module LifecycleHolds {
  import opened Options
  import opened Lifecycle
  import opened LifecycleIds

  // The kernel create holds this volume: from the grant until it inserts its session or releases.
  function KernelVolume(pc: KernelPc): Option<Vid> {
    if pc.KLooked? then None else pc.vol
  }

  // The session under this entry relies on holding v.
  predicate Relies(e: Entry, v: Vid) {
    || (e.session.Some? && e.session.value.mount == Some(v))
    || (e.session.Some? && (e.fs == Some(FsAttached(v)) || e.fs == Some(FsAuthed(v))))
    || (e.create.Some? && KernelVolume(e.create.value) == Some(v))
  }

  // Someone is still going to keep, mount or release the hold this entry's id has on v.
  predicate Accounts(e: Entry, v: Vid) {
    Relies(e, v) || e.fs == Some(FsAttached(v)) || e.fs == Some(FsUnwind(v))
  }

  ghost predicate BeingDropped(s: State, i: Sid) {
    exists t :: t in s.drops && Claimed(s.drops[t]) && s.drops[t].sid == i
  }

  predicate ReliesSane(s: State, i: Sid, v: Vid) {
    i in s.ids && Relies(s.ids[i], v) ==> v in s.holder && s.holder[v] == Some(i)
  }

  // A holder on an indexed volume is a session that has it mounted or is about to, a create that
  // will mount or release it, or a session whose drop has yet to call OnDrop.
  ghost predicate HoldSane(s: State, v: Vid) {
    && (v in s.indexed ==> v in s.holder)
    && (v in s.holder && s.holder[v].Some? ==> s.holder[v].value in s.ids)
    && (v in s.indexed && v in s.holder && s.holder[v].Some? ==>
          Accounts(s.ids[s.holder[v].value], v) || BeingDropped(s, s.holder[v].value))
  }

  ghost predicate Holds(s: State) {
    (forall i, v :: ReliesSane(s, i, v)) && (forall v :: HoldSane(s, v))
  }

  // Threads other than tid do not move; tid, if it was mid-drop on another id, does not matter here.
  lemma DropsPersist(s: State, s': State, tid: Tid, i: Sid)
    requires forall t :: t != tid && t in s.drops ==> t in s'.drops && s'.drops[t] == s.drops[t]
    requires tid in s.drops && Claimed(s.drops[tid]) && s.drops[tid].sid == i ==>
      tid in s'.drops && Claimed(s'.drops[tid]) && s'.drops[tid].sid == i
    ensures BeingDropped(s, i) ==> BeingDropped(s', i)
  {
    if BeingDropped(s, i) {
      var t :| t in s.drops && Claimed(s.drops[t]) && s.drops[t].sid == i;
      assert t in s'.drops && Claimed(s'.drops[t]) && s'.drops[t].sid == i;
    }
  }

  lemma BeginHolds(s: State, a: Action, i: Sid, v: Vid)
    requires Holds(s)
    ensures ReliesSane(BeginStep(s, a), i, v) && HoldSane(BeginStep(s, a), v)
  {
    assert ReliesSane(s, i, v) && HoldSane(s, v);
    if v in s.holder && s.holder[v].Some? {
      DropsPersist(s, BeginStep(s, a), if a.Drop? || a.Reap? then a.tid else 0, s.holder[v].value);
    }
  }

  lemma FsHolds(s: State, sid: Sid, tid: Tid, ok: bool, i: Sid, v: Vid)
    requires Holds(s) && Ids(s) && sid in s.ids && s.ids[sid].fs.Some? && tid !in s.drops
    ensures ReliesSane(FsStep(s, sid, tid, ok), i, v) && HoldSane(FsStep(s, sid, tid, ok), v)
  {
    assert ReliesSane(s, i, v) && HoldSane(s, v) && IdSane(s, sid) && ReliesSane(s, sid, v);
    if v in s.holder && s.holder[v].Some? {
      DropsPersist(s, FsStep(s, sid, tid, ok), tid, s.holder[v].value);
    }
  }

  lemma KernelHolds(s: State, sid: Sid, ok: bool, i: Sid, v: Vid)
    requires Holds(s) && Ids(s) && sid in s.ids && s.ids[sid].create.Some?
    ensures ReliesSane(KernelStep(s, sid, ok), i, v) && HoldSane(KernelStep(s, sid, ok), v)
  {
    assert ReliesSane(s, i, v) && HoldSane(s, v) && IdSane(s, sid) && ReliesSane(s, sid, v);
    if v in s.holder && s.holder[v].Some? {
      DropsPersist(s, KernelStep(s, sid, ok), 0, s.holder[v].value);
    }
  }

  lemma DropStepHolds(s: State, tid: Tid, ok: bool, i: Sid, v: Vid)
    requires Holds(s) && Ids(s) && tid in s.drops && s.drops[tid].sid in s.ids
    ensures ReliesSane(DropStep(s, tid, ok), i, v) && HoldSane(DropStep(s, tid, ok), v)
  {
    var s', sid := DropStep(s, tid, ok), s.drops[tid].sid;
    assert ReliesSane(s, i, v) && HoldSane(s, v) && IdSane(s, sid) && DropSane(s, tid);
    if v in s.holder && s.holder[v].Some? {
      if s.holder[v].value != sid || !s.drops[tid].DropLast? {
        DropsPersist(s, s', tid, s.holder[v].value);
      }
      if s.drops[tid].DropKnown? && s.ids[sid].session.Some? {
        assert Claimed(s'.drops[tid]);
        assert BeingDropped(s', sid);
      }
    }
  }

  lemma {:induction false} StepHolds(s: State, a: Action)
    requires Holds(s) && Ids(s)
    ensures Holds(Step(s, a))
  {
    forall i, v
      ensures ReliesSane(Step(s, a), i, v)
    {
      StepHoldsAt(s, a, i, v);
    }
    forall v
      ensures HoldSane(Step(s, a), v)
    {
      StepHoldsAt(s, a, 0, v);
    }
  }

  lemma StepHoldsAt(s: State, a: Action, i: Sid, v: Vid)
    requires Holds(s) && Ids(s)
    ensures ReliesSane(Step(s, a), i, v) && HoldSane(Step(s, a), v)
  {
    assert ReliesSane(s, i, v) && HoldSane(s, v);
    match a {
      case GoFs(sid, tid, ok) =>
        if sid in s.ids && s.ids[sid].fs.Some? && tid !in s.drops {
          FsHolds(s, sid, tid, ok, i, v);
        }
      case GoKernel(sid, ok) =>
        if sid in s.ids && s.ids[sid].create.Some? {
          KernelHolds(s, sid, ok, i, v);
        }
      case GoDrop(tid, ok) =>
        if tid in s.drops && s.drops[tid].sid in s.ids {
          DropStepHolds(s, tid, ok, i, v);
        }
      case _ => BeginHolds(s, a, i, v);
    }
  }
}
