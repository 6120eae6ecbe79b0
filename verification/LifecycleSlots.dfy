/** Kernel slots: every slot taken from the semaphore has exactly one owner at every step. */
module LifecycleSlots {
  import opened Options
  import opened Lifecycle
  import opened LifecycleIds
  import Sums

  // A slot is owned by a kernel session in the map or a create between Acquire and its insert ...
  function EntrySlots(e: Entry): nat {
    if e.session.Some? && e.session.value.kernel then 1
    else if e.create.Some? && (e.create.value.KSlotRaw? || e.create.value.KSlot? || e.create.value.KRegistered?
                               || e.create.value.KGiveBack?) then 1
    else 0
  }

  // ... or a drop that claimed a kernel session and has not released yet.
  function DropSlots(pc: DropPc): nat {
    if (pc.DropClaimed? && pc.kernel) || pc.DropFreeing? then 1 else 0
  }

  // inUse lags the semaphore by the threads between the two updates of Acquire and of Release.
  function EntryInUse(e: Entry): nat {
    if e.create.Some? && e.create.value.KSlotRaw? then 0
    else if e.create.Some? && e.create.value.KGaveBack? then 1
    else EntrySlots(e)
  }

  function DropInUse(pc: DropPc): nat {
    if pc.DropFreed? then 1 else DropSlots(pc)
  }

  ghost predicate Slots(s: State) {
    && s.held == Sums.Tally(s.ids, EntrySlots) + Sums.Tally(s.drops, DropSlots)
    && s.inUse == Sums.Tally(s.ids, EntryInUse) + Sums.Tally(s.drops, DropInUse)
    && s.held <= s.max
  }

  lemma BeginSlots(s: State, a: Action)
    requires Slots(s)
    ensures Slots(BeginStep(s, a))
  {
    var s' := BeginStep(s, a);
    if a.CreateFilesystem? || a.CreateKernel? {
      if s' != s {
        NewEntryTallies(s, a.sid, s'.ids[a.sid]);
      }
    } else if a.Drop? || a.Reap? {
      if s' != s {
        Sums.TallyUpdate(s.drops, DropSlots, a.tid, s'.drops[a.tid]);
        Sums.TallyUpdate(s.drops, DropInUse, a.tid, s'.drops[a.tid]);
      }
    }
  }

  lemma NewEntryTallies(s: State, sid: Sid, e: Entry)
    requires sid !in s.ids && EntrySlots(e) == 0 == EntryInUse(e)
    ensures Sums.Tally(s.ids[sid := e], EntrySlots) == Sums.Tally(s.ids, EntrySlots)
    ensures Sums.Tally(s.ids[sid := e], EntryInUse) == Sums.Tally(s.ids, EntryInUse)
  {
    Sums.TallyUpdate(s.ids, EntrySlots, sid, e);
    Sums.TallyUpdate(s.ids, EntryInUse, sid, e);
  }

  lemma EntryTallies(s: State, sid: Sid, e: Entry)
    requires sid in s.ids
    ensures Sums.Tally(s.ids[sid := e], EntrySlots)
         == Sums.Tally(s.ids, EntrySlots) + EntrySlots(e) - EntrySlots(s.ids[sid])
    ensures Sums.Tally(s.ids[sid := e], EntryInUse)
         == Sums.Tally(s.ids, EntryInUse) + EntryInUse(e) - EntryInUse(s.ids[sid])
  {
    Sums.TallyUpdate(s.ids, EntrySlots, sid, e);
    Sums.TallyUpdate(s.ids, EntryInUse, sid, e);
  }

  // A filesystem create owns nothing and takes nothing.
  lemma FsWeights(e: Entry, pc: FsPc, go: bool)
    requires EntrySane(e) && e.fs == Some(pc)
    ensures EntrySlots(FsMove(e, pc, go)) == EntrySlots(e) && EntryInUse(FsMove(e, pc, go)) == EntryInUse(e)
  {
  }

  lemma FsSlots(s: State, sid: Sid, tid: Tid, ok: bool)
    requires Slots(s) && Ids(s) && sid in s.ids && s.ids[sid].fs.Some? && tid !in s.drops
    ensures Slots(FsStep(s, sid, tid, ok))
  {
    assert IdSane(s, sid);
    var e, pc, go := s.ids[sid], s.ids[sid].fs.value, FsProceeds(s, sid, s.ids[sid].fs.value, ok);
    FsWeights(e, pc, go);
    EntryTallies(s, sid, FsMove(e, pc, go));
    if e.session.Some? {
      var start := DropKnown(sid, e.session.value.kernel, false);
      Sums.TallyUpdate(s.drops, DropSlots, tid, start);
      Sums.TallyUpdate(s.drops, DropInUse, tid, start);
    }
  }

  // A kernel create's ownership changes exactly when it updates the semaphore, and the counter.
  lemma KernelWeights(e: Entry, pc: KernelPc, go: bool)
    requires EntrySane(e) && e.create == Some(pc)
    ensures EntrySlots(KernelMove(e, pc, go)) - EntrySlots(e)
            == if pc.KStart? && go then 1 else if pc.KGiveBack? then -1 else 0
    ensures EntryInUse(KernelMove(e, pc, go)) - EntryInUse(e)
            == if pc.KSlotRaw? then 1 else if pc.KGaveBack? then -1 else 0
  {
  }

  lemma KernelSlots(s: State, sid: Sid, ok: bool)
    requires Slots(s) && Ids(s) && sid in s.ids && s.ids[sid].create.Some?
    ensures Slots(KernelStep(s, sid, ok))
  {
    assert IdSane(s, sid);
    var e, pc, go := s.ids[sid], s.ids[sid].create.value, KernelProceeds(s, sid, s.ids[sid].create.value, ok);
    KernelWeights(e, pc, go);
    EntryTallies(s, sid, KernelMove(e, pc, go));
  }

  lemma DropTallies(s: State, tid: Tid, ok: bool, w: DropPc -> nat)
    requires tid in s.drops && s.drops[tid].sid in s.ids
    ensures var next := DropNext(s.ids[s.drops[tid].sid], s.drops[tid], ok);
            Sums.Tally(DropStep(s, tid, ok).drops, w)
            == Sums.Tally(s.drops, w) - w(s.drops[tid]) + NextSlots(next, w)
  {
    var next := DropNext(s.ids[s.drops[tid].sid], s.drops[tid], ok);
    if next.Some? {
      Sums.TallyUpdate(s.drops, w, tid, next.value);
    } else {
      Sums.TallyRemove(s.drops, w, tid);
    }
  }

  function NextSlots(next: Option<DropPc>, w: DropPc -> nat): nat {
    if next.Some? then w(next.value) else 0
  }

  // A claim moves the session's slot to the drop; it is given up with the semaphore, then the counter.
  lemma DropWeights(e: Entry, pc: DropPc, ok: bool)
    requires EntrySane(e) && PcSane(e, pc)
    ensures var e', next := DropMove(e, pc, ok), DropNext(e, pc, ok);
            var freed, dropped := if pc.DropFreeing? then 1 else 0, if pc.DropFreed? then 1 else 0;
            && EntrySlots(e') + NextSlots(next, DropSlots) == EntrySlots(e) + DropSlots(pc) - freed
            && EntryInUse(e') + NextSlots(next, DropInUse) == EntryInUse(e) + DropInUse(pc) - dropped
  {
  }

  lemma DropStepSlots(s: State, tid: Tid, ok: bool)
    requires Slots(s) && Ids(s) && tid in s.drops && s.drops[tid].sid in s.ids
    ensures Slots(DropStep(s, tid, ok))
  {
    var pc := s.drops[tid];
    var e := s.ids[pc.sid];
    assert IdSane(s, pc.sid) && DropSane(s, tid);
    DropWeights(e, pc, ok);
    EntryTallies(s, pc.sid, DropMove(e, pc, ok));
    DropTallies(s, tid, ok, DropSlots);
    DropTallies(s, tid, ok, DropInUse);
  }

  lemma {:induction false} StepSlots(s: State, a: Action)
    requires Slots(s) && Ids(s)
    ensures Slots(Step(s, a))
  {
    match a {
      case GoFs(sid, tid, ok) =>
        if sid in s.ids && s.ids[sid].fs.Some? && tid !in s.drops {
          FsSlots(s, sid, tid, ok);
        }
      case GoKernel(sid, ok) =>
        if sid in s.ids && s.ids[sid].create.Some? {
          KernelSlots(s, sid, ok);
        }
      case GoDrop(tid, ok) =>
        if tid in s.drops && s.drops[tid].sid in s.ids {
          DropStepSlots(s, tid, ok);
        }
      case _ => BeginSlots(s, a);
    }
  }

  // ------------------------------------------------------------------ what it means

  function KernelSessions(s: State): set<Sid> {
    set i | i in s.ids && s.ids[i].session.Some? && s.ids[i].session.value.kernel
  }

  // Creates past Acquire that have neither inserted their session nor given the slot back.
  function CreatesHolding(s: State): set<Sid> {
    set i | i in s.ids && s.ids[i].create.Some? && EntrySlots(s.ids[i]) == 1
  }

  // Drops that claimed a kernel session and have not released its slot.
  function DropsHolding(s: State): set<Tid> {
    set t | t in s.drops && DropSlots(s.drops[t]) == 1
  }

  /** Conservation: no slot is lost, none is released twice. */
  lemma {:induction false} SlotsAreConserved(s: State)
    requires Slots(s) && Ids(s)
    ensures s.held == |KernelSessions(s)| + |CreatesHolding(s)| + |DropsHolding(s)|
  {
    Sums.TallyCounts(s.ids, EntrySlots);
    OwnersSplit(s);
    Sums.TallyCounts(s.drops, DropSlots);
    assert Sums.Ones(s.drops, DropSlots) == DropsHolding(s);
  }

  lemma OwnersSplit(s: State)
    requires Ids(s)
    ensures Sums.Ones(s.ids, EntrySlots) == KernelSessions(s) + CreatesHolding(s)
    ensures KernelSessions(s) !! CreatesHolding(s)
  {
    assert forall i :: i in s.ids ==> IdSane(s, i);
  }

  /** The semaphore never panics: whoever is about to release it still holds a slot. */
  lemma {:induction false} ReleaseNeverPanics(s: State)
    requires Slots(s)
    ensures s.inUse >= 0 && 0 <= s.held <= s.max
    ensures forall i :: i in s.ids && s.ids[i].create.Some? && s.ids[i].create.value.KGiveBack? ==> s.held >= 1
    ensures forall t :: t in s.drops && s.drops[t].DropFreeing? ==> s.held >= 1
  {
    forall i | i in s.ids && s.ids[i].create.Some? && s.ids[i].create.value.KGiveBack?
      ensures s.held >= 1
    {
      Sums.TallyRemove(s.ids, EntrySlots, i);
    }
    forall t | t in s.drops && s.drops[t].DropFreeing?
      ensures s.held >= 1
    {
      Sums.TallyRemove(s.drops, DropSlots, t);
    }
  }
}
