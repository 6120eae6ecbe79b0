/**
 The create and delete handlers as they run when no other thread gets in between: the lifecycle
 machine's steps of one request taken in a row, and the code that performs them.
 */
module Handlers {
  import opened Options
  import opened Lifecycle
  import opened LifecycleHolds
  import opened LifecycleRuns

  function Play(s: State, actions: seq<Action>): State {
    if actions == [] then s else Step(Play(s, actions[..|actions| - 1]), actions[|actions| - 1])
  }

  lemma {:induction false} PlayMore(s: State, actions: seq<Action>, a: Action)
    ensures Play(s, actions + [a]) == Step(Play(s, actions), a)
  {
    assert (actions + [a])[..|actions|] == actions;
  }

  lemma {:induction false} PlayOn(s: State, a: seq<Action>, b: seq<Action>)
    ensures Play(s, a + b) == Play(Play(s, a), b)
    decreases |b|
  {
    if b == [] {
      assert a + b == a;
    } else {
      PlayOn(s, a, b[..|b| - 1]);
      assert (a + b)[..|a + b| - 1] == a + b[..|b| - 1];
    }
  }

  // The machine s, but for what it has under sid and what this request has taken.
  function With(s: State, sid: Sid, e: Entry, h: map<Vid, Option<Sid>>, slots: int, drops: map<Tid, DropPc>): State {
    s.(ids := s.ids[sid := e], holder := h, held := s.held + slots, inUse := s.inUse + slots, drops := drops)
  }

  // An id that was minted and came to nothing, or is over.
  const BLANK := Entry(None, false, None, None, false)

  function Untouched(s: State, sid: Sid): State {
    With(s, sid, BLANK, s.holder, 0, s.drops)
  }

  // The session as a successful create leaves it.
  function Created(s: State, sid: Sid, kernel: bool, vol: Option<Vid>): State {
    With(s, sid, Entry(Some(Session(kernel, vol)), kernel, None, None, false), Taken(s, sid, vol),
         if kernel then 1 else 0, s.drops)
  }

  function Taken(s: State, sid: Sid, vol: Option<Vid>): map<Vid, Option<Sid>> {
    if vol.Some? then s.holder[vol.value := Some(sid)] else s.holder
  }

  // A minted id nobody has used, over a machine whose index names volume objects.
  predicate Fresh(s: State, sid: Sid) {
    sid !in s.ids && s.indexed <= s.holder.Keys && forall v :: v in s.holder ==> s.holder[v] != Some(sid)
  }

  lemma {:induction false} GoodIsFresh(s: State, sid: Sid)
    requires Good(s) && sid !in s.ids
    ensures Fresh(s, sid)
  {
    forall v
      ensures v in s.indexed ==> v in s.holder
      ensures v in s.holder ==> s.holder[v] != Some(sid)
    {
      assert HoldSane(s, v);
    }
  }

  // ------------------------------------------------------------------ kernel sessions

  predicate Attachable(s: State, vol: Option<Vid>) {
    vol.Some? ==> vol.value in s.indexed && vol.value in s.holder && s.holder[vol.value] == None
  }

  // In between: the create's pc, whether the kernel is registered, its hold, its slot.
  function Creating(s: State, sid: Sid, pc: KernelPc, resident: bool, h: map<Vid, Option<Sid>>, held: int,
      inUse: int): State {
    s.(ids := s.ids[sid := Entry(None, resident, None, Some(pc), false)], holder := h, held := held, inUse := inUse)
  }

  // Attached, and about to ask for a slot.
  function Asking(s: State, sid: Sid, vol: Option<Vid>): State {
    Creating(s, sid, KStart(vol), false, Taken(s, sid, vol), s.held, s.inUse)
  }

  // What the handler does, whatever it meets; steps after the end of the create do nothing.
  function KernelSteps(sid: Sid, slotOk: bool, startOk: bool): seq<Action> {
    [] + [GoKernel(sid, slotOk)] + [GoKernel(sid, true)] + [GoKernel(sid, startOk)]
    + [GoKernel(sid, true)] + [GoKernel(sid, true)] + [GoKernel(sid, true)]
  }

  lemma {:induction false} KernelGoes(s: State, sid: Sid, pc: KernelPc, resident: bool, h: map<Vid, Option<Sid>>,
      held: int, inUse: int, ok: bool)
    ensures var t := Creating(s, sid, pc, resident, h, held, inUse);
            var go := KernelProceeds(t, sid, pc, ok);
            var e := KernelMove(t.ids[sid], pc, go);
            Step(t, GoKernel(sid, ok))
            == s.(ids := s.ids[sid := e], holder := KernelHolder(t, sid, pc, go),
                  held := if pc.KStart? && go then held + 1 else if pc.KGiveBack? then held - 1 else held,
                  inUse := if pc.KSlotRaw? then inUse + 1 else if pc.KGaveBack? then inUse - 1 else inUse)
  {
    var t := Creating(s, sid, pc, resident, h, held, inUse);
    var e := KernelMove(t.ids[sid], pc, KernelProceeds(t, sid, pc, ok));
    assert t.ids[sid := e] == s.ids[sid := e];
  }

  lemma {:induction false} Idles(s: State, sid: Sid, ok: bool)
    requires sid in s.ids ==> s.ids[sid].create.None?
    ensures Step(s, GoKernel(sid, ok)) == s
  {
  }

  lemma {:induction false} SixSteps(s: State, sid: Sid, slotOk: bool, startOk: bool)
    ensures var a := Step(Step(Step(s, GoKernel(sid, slotOk)), GoKernel(sid, true)), GoKernel(sid, startOk));
            Play(s, KernelSteps(sid, slotOk, startOk))
            == Step(Step(Step(a, GoKernel(sid, true)), GoKernel(sid, true)), GoKernel(sid, true))
  {
    var a1 := [] + [GoKernel(sid, slotOk)];
    var a2 := a1 + [GoKernel(sid, true)];
    var a3 := a2 + [GoKernel(sid, startOk)];
    var a4 := a3 + [GoKernel(sid, true)];
    var a5 := a4 + [GoKernel(sid, true)];
    PlayMore(s, [], GoKernel(sid, slotOk));
    PlayMore(s, a1, GoKernel(sid, true));
    PlayMore(s, a2, GoKernel(sid, startOk));
    PlayMore(s, a3, GoKernel(sid, true));
    PlayMore(s, a4, GoKernel(sid, true));
    PlayMore(s, a5, GoKernel(sid, true));
  }

  lemma {:induction false} UnwindRestores(s: State, sid: Sid, vol: Option<Vid>)
    requires Attachable(s, vol)
    ensures var t := Creating(s, sid, KUnwind(vol), false, Taken(s, sid, vol), s.held, s.inUse);
            Step(t, GoKernel(sid, true)) == Untouched(s, sid)
  {
    KernelGoes(s, sid, KUnwind(vol), false, Taken(s, sid, vol), s.held, s.inUse, true);
    if vol.Some? {
      assert Taken(s, sid, vol)[vol.value := None] == s.holder;
    }
  }

  lemma {:induction false} SlotRefused(s: State, sid: Sid, vol: Option<Vid>, slotOk: bool, startOk: bool)
    requires Attachable(s, vol) && !(slotOk && s.held < s.max)
    ensures Play(Asking(s, sid, vol), KernelSteps(sid, slotOk, startOk)) == Untouched(s, sid)
  {
    var t := Creating(s, sid, KStart(vol), false, Taken(s, sid, vol), s.held, s.inUse);
    SixSteps(t, sid, slotOk, startOk);
    KernelGoes(s, sid, KStart(vol), false, Taken(s, sid, vol), s.held, s.inUse, slotOk);
    UnwindRestores(s, sid, vol);
    Idles(Untouched(s, sid), sid, startOk);
    Idles(Untouched(s, sid), sid, true);
  }

  // Acquire: the semaphore, then the counter.
  lemma {:induction false} SlotTaken(s: State, sid: Sid, vol: Option<Vid>)
    requires s.held < s.max
    ensures var h := Taken(s, sid, vol);
            Step(Step(Asking(s, sid, vol), GoKernel(sid, true)), GoKernel(sid, true))
            == Creating(s, sid, KSlot(vol), false, h, s.held + 1, s.inUse + 1)
  {
    KernelGoes(s, sid, KStart(vol), false, Taken(s, sid, vol), s.held, s.inUse, true);
    KernelGoes(s, sid, KSlotRaw(vol), false, Taken(s, sid, vol), s.held + 1, s.inUse, true);
  }

  lemma {:induction false} SlotGivenBack(s: State, sid: Sid, vol: Option<Vid>)
    ensures var t := Creating(s, sid, KSlot(vol), false, Taken(s, sid, vol), s.held + 1, s.inUse + 1);
            Step(Step(Step(t, GoKernel(sid, false)), GoKernel(sid, true)), GoKernel(sid, true))
            == Creating(s, sid, KUnwind(vol), false, Taken(s, sid, vol), s.held, s.inUse)
  {
    var h := Taken(s, sid, vol);
    KernelGoes(s, sid, KSlot(vol), false, h, s.held + 1, s.inUse + 1, false);
    KernelGoes(s, sid, KGiveBack(vol), false, h, s.held + 1, s.inUse + 1, true);
    KernelGoes(s, sid, KGaveBack(vol), false, h, s.held, s.inUse + 1, true);
  }

  lemma {:induction false} StartRefused(s: State, sid: Sid, vol: Option<Vid>)
    requires Attachable(s, vol) && s.held < s.max
    ensures Play(Asking(s, sid, vol), KernelSteps(sid, true, false)) == Untouched(s, sid)
  {
    SixSteps(Creating(s, sid, KStart(vol), false, Taken(s, sid, vol), s.held, s.inUse), sid, true, false);
    SlotTaken(s, sid, vol);
    SlotGivenBack(s, sid, vol);
    UnwindRestores(s, sid, vol);
  }

  lemma {:induction false} StartGranted(s: State, sid: Sid, vol: Option<Vid>)
    requires s.held < s.max
    ensures Play(Asking(s, sid, vol), KernelSteps(sid, true, true)) == Created(s, sid, true, vol)
  {
    var h := Taken(s, sid, vol);
    SixSteps(Creating(s, sid, KStart(vol), false, h, s.held, s.inUse), sid, true, true);
    SlotTaken(s, sid, vol);
    KernelGoes(s, sid, KSlot(vol), false, h, s.held + 1, s.inUse + 1, true);
    KernelGoes(s, sid, KRegistered(vol), true, h, s.held + 1, s.inUse + 1, true);
    Idles(Created(s, sid, true, vol), sid, true);
  }

  // A create that is not under way stays that way.
  lemma {:induction false} NothingToDo(s: State, sid: Sid, slotOk: bool, startOk: bool)
    requires sid in s.ids ==> s.ids[sid].create.None?
    ensures Play(s, KernelSteps(sid, slotOk, startOk)) == s
  {
    SixSteps(s, sid, slotOk, startOk);
    Idles(s, sid, slotOk);
    Idles(s, sid, startOk);
    Idles(s, sid, true);
  }

  predicate KernelSucceeds(s: State, vol: Option<Vid>, attachOk: bool, slotOk: bool, startOk: bool) {
    Attaches(s, vol, attachOk) && slotOk && s.held < s.max && startOk
  }

  predicate Attaches(s: State, vol: Option<Vid>, attachOk: bool) {
    Attachable(s, vol) && (vol.Some? ==> attachOk)
  }

  function KernelTrace(sid: Sid, vol: Option<Vid>, attachOk: bool, slotOk: bool, startOk: bool): seq<Action> {
    AttachSteps(sid, vol, attachOk) + KernelSteps(sid, slotOk, startOk)
  }

  function AttachSteps(sid: Sid, vol: Option<Vid>, attachOk: bool): seq<Action> {
    if vol.Some? then [] + [CreateKernel(sid, vol)] + [GoKernel(sid, attachOk)] else [] + [CreateKernel(sid, vol)]
  }

  lemma {:induction false} KernelAttaches(s: State, sid: Sid, vol: Option<Vid>, attachOk: bool)
    requires Fresh(s, sid)
    ensures Play(s, AttachSteps(sid, vol, attachOk))
            == if Attaches(s, vol, attachOk) then Asking(s, sid, vol)
               else if vol.value in s.indexed then Untouched(s, sid)
               else s
  {
    PlayMore(s, [], CreateKernel(sid, vol));
    if vol.Some? {
      PlayMore(s, [] + [CreateKernel(sid, vol)], GoKernel(sid, attachOk));
      if vol.value in s.indexed {
        KernelGoes(s, sid, KLooked(vol.value), false, s.holder, s.held, s.inUse, attachOk);
      }
    }
  }

  /** All or nothing: whatever goes wrong, an uninterrupted kernel create leaves either the complete
      session, with its slot, its kernel and its hold, or no trace but a spent id. */
  lemma {:induction false} KernelCreateIsAtomic(s: State, sid: Sid, vol: Option<Vid>, attachOk: bool, slotOk: bool,
      startOk: bool)
    requires Fresh(s, sid)
    ensures Play(s, KernelTrace(sid, vol, attachOk, slotOk, startOk))
            == if KernelSucceeds(s, vol, attachOk, slotOk, startOk) then Created(s, sid, true, vol)
               else if vol.Some? && vol.value !in s.indexed then s
               else Untouched(s, sid)
  {
    PlayOn(s, AttachSteps(sid, vol, attachOk), KernelSteps(sid, slotOk, startOk));
    KernelAttaches(s, sid, vol, attachOk);
    if !Attaches(s, vol, attachOk) {
      NothingToDo(Play(s, AttachSteps(sid, vol, attachOk)), sid, slotOk, startOk);
    } else if !(slotOk && s.held < s.max) {
      SlotRefused(s, sid, vol, slotOk, startOk);
    } else if startOk {
      StartGranted(s, sid, vol);
    } else {
      StartRefused(s, sid, vol);
    }
  }

  // ------------------------------------------------------------------ destroy

  // In between: what is left under sid, and where the drop is.
  function Dropping(s: State, sid: Sid, e: Entry, h: map<Vid, Option<Sid>>, held: int, inUse: int, tid: Tid,
      pc: DropPc): State {
    s.(ids := s.ids[sid := e], holder := h, held := held, inUse := inUse, drops := s.drops[tid := pc])
  }

  lemma {:induction false} DropGoes(s: State, sid: Sid, e: Entry, h: map<Vid, Option<Sid>>, held: int, inUse: int,
      tid: Tid, pc: DropPc)
    requires pc.sid == sid && tid !in s.drops
    ensures var t := Dropping(s, sid, e, h, held, inUse, tid, pc);
            var e', next := DropMove(e, pc, true), DropNext(e, pc, true);
            Step(t, GoDrop(tid, true))
            == s.(ids := s.ids[sid := e'], holder := if pc.DropLast? then ReleasedAll(t, sid) else h,
                  held := if pc.DropFreeing? then held - 1 else held,
                  inUse := if pc.DropFreed? then inUse - 1 else inUse,
                  drops := if next.Some? then s.drops[tid := next.value] else s.drops)
  {
    var t := Dropping(s, sid, e, h, held, inUse, tid, pc);
    var e', next := DropMove(e, pc, true), DropNext(e, pc, true);
    assert t.ids[sid := e'] == s.ids[sid := e'];
    assert next.Some? ==> t.drops[tid := next.value] == s.drops[tid := next.value];
    assert t.drops - {tid} == s.drops;
  }

  lemma {:induction false} NoDrop(s: State, tid: Tid)
    requires tid !in s.drops
    ensures Step(s, GoDrop(tid, true)) == s
  {
  }

  // Three steps finish a filesystem session's drop, five a kernel's.
  function DropSteps(tid: Tid): seq<Action> {
    [] + [GoDrop(tid, true)] + [GoDrop(tid, true)] + [GoDrop(tid, true)] + [GoDrop(tid, true)] + [GoDrop(tid, true)]
  }

  function DropStepped(s: State, tid: Tid): State {
    Step(s, GoDrop(tid, true))
  }

  lemma {:induction false} FiveDrops(s: State, tid: Tid)
    ensures Play(s, DropSteps(tid))
            == DropStepped(DropStepped(DropStepped(DropStepped(DropStepped(s, tid), tid), tid), tid), tid)
  {
    var d := GoDrop(tid, true);
    PlayMore(s, [], d);
    PlayMore(s, [] + [d], d);
    PlayMore(s, [] + [d] + [d], d);
    PlayMore(s, [] + [d] + [d] + [d], d);
    PlayMore(s, [] + [d] + [d] + [d] + [d], d);
  }

  function SlotOf(session: Session): int {
    if session.kernel then 1 else 0
  }

  // The machine without the session: its kernel, its slot and its holds gone with it.
  function Destroyed(s: State, sid: Sid): State
    requires Listed(s, sid)
  {
    var e := s.ids[sid];
    var session := e.session.value;
    s.(ids := s.ids[sid := e.(session := None, resident := e.resident && !session.kernel)],
       holder := ReleasedAll(s, sid),
       held := s.held - SlotOf(session), inUse := s.inUse - SlotOf(session))
  }

  function DropBegun(s: State, sid: Sid, tid: Tid): State
    requires Listed(s, sid)
  {
    s.(drops := s.drops[tid := DropKnown(sid, s.ids[sid].session.value.kernel, false)])
  }

  // Claimed, and for a kernel session the container is gone as well.
  lemma {:induction false} ClaimPlays(s: State, sid: Sid, tid: Tid)
    requires Listed(s, sid) && tid !in s.drops
    ensures var e := s.ids[sid];
            var kernel := e.session.value.kernel;
            DropStepped(DropStepped(DropBegun(s, sid, tid), tid), tid)
            == Dropping(s, sid, e.(session := None, resident := e.resident && !kernel), s.holder, s.held, s.inUse, tid,
                        if kernel then DropFreeing(sid) else DropLast(sid))
  {
    var e := s.ids[sid];
    var kernel := e.session.value.kernel;
    assert s.ids[sid := e] == s.ids;
    DropGoes(s, sid, e, s.holder, s.held, s.inUse, tid, DropKnown(sid, kernel, false));
    DropGoes(s, sid, e.(session := None), s.holder, s.held, s.inUse, tid, DropClaimed(sid, kernel, false));
  }

  lemma {:induction false} LastPlays(s: State, sid: Sid, e: Entry, held: int, inUse: int, tid: Tid)
    requires tid !in s.drops
    ensures DropStepped(Dropping(s, sid, e, s.holder, held, inUse, tid, DropLast(sid)), tid)
            == s.(ids := s.ids[sid := e], holder := ReleasedAll(s, sid), held := held, inUse := inUse)
  {
    DropGoes(s, sid, e, s.holder, held, inUse, tid, DropLast(sid));
    var t := Dropping(s, sid, e, s.holder, held, inUse, tid, DropLast(sid));
    assert ReleasedAll(t, sid) == ReleasedAll(s, sid);
  }

  lemma {:induction false} FreeingPlays(s: State, sid: Sid, e: Entry, tid: Tid)
    requires tid !in s.drops
    ensures DropStepped(DropStepped(Dropping(s, sid, e, s.holder, s.held, s.inUse, tid, DropFreeing(sid)), tid), tid)
            == Dropping(s, sid, e, s.holder, s.held - 1, s.inUse - 1, tid, DropLast(sid))
  {
    DropGoes(s, sid, e, s.holder, s.held, s.inUse, tid, DropFreeing(sid));
    DropGoes(s, sid, e, s.holder, s.held - 1, s.inUse, tid, DropFreed(sid));
  }

  lemma {:induction false} DropPlays(s: State, sid: Sid, tid: Tid)
    requires Listed(s, sid) && tid !in s.drops
    ensures Play(DropBegun(s, sid, tid), DropSteps(tid)) == Destroyed(s, sid)
  {
    var e := s.ids[sid].(session := None, resident := s.ids[sid].resident && !s.ids[sid].session.value.kernel);
    FiveDrops(DropBegun(s, sid, tid), tid);
    ClaimPlays(s, sid, tid);
    if s.ids[sid].session.value.kernel {
      FreeingPlays(s, sid, e, tid);
      LastPlays(s, sid, e, s.held - 1, s.inUse - 1, tid);
    } else {
      LastPlays(s, sid, e, s.held, s.inUse, tid);
      NoDrop(Destroyed(s, sid), tid);
    }
  }

  function DestroyTrace(sid: Sid, tid: Tid): seq<Action> {
    [Drop(tid, sid)] + DropSteps(tid)
  }

  /** From any state, an uninterrupted Destroy takes the session, its kernel, its slot and every one
      of its holds on indexed volumes, and touches nothing else. */
  lemma {:induction false} DestroyPlays(s: State, sid: Sid, tid: Tid)
    requires Listed(s, sid) && tid !in s.drops
    ensures Play(s, DestroyTrace(sid, tid)) == Destroyed(s, sid)
  {
    PlayOn(s, [Drop(tid, sid)], DropSteps(tid));
    PlayMore(s, [], Drop(tid, sid));
    assert [] + [Drop(tid, sid)] == [Drop(tid, sid)];
    DropPlays(s, sid, tid);
  }

  // Giving back a hold just taken leaves the holds as they were.
  lemma {:induction false} ReleaseRestores(s: State, t: State, sid: Sid, vol: Option<Vid>)
    requires Fresh(s, sid) && Attachable(s, vol) && t.holder == Taken(s, sid, vol) && t.indexed == s.indexed
    ensures ReleasedAll(t, sid) == s.holder
  {
  }

  lemma {:induction false} SameEntry(s: State, sid: Sid, a: Entry, b: Entry)
    ensures s.ids[sid := a][sid := b] == s.ids[sid := b]
  {
  }

  /** Destroy undoes either create: slot, kernel, hold and session are all given back. */
  lemma {:induction false} DestroyUndoesCreate(s: State, sid: Sid, kernel: bool, vol: Option<Vid>, tid: Tid)
    requires Fresh(s, sid) && tid !in s.drops && Attachable(s, vol)
    ensures Play(Created(s, sid, kernel, vol), DestroyTrace(sid, tid)) == Untouched(s, sid)
  {
    var t := Created(s, sid, kernel, vol);
    DestroyPlays(t, sid, tid);
    ReleaseRestores(s, t, sid, vol);
    SameEntry(s, sid, t.ids[sid], BLANK);
  }

  // ------------------------------------------------------------------ filesystem sessions

  // In between: the session, if it is still listed, and the create's pc and hold.
  function Mounting(s: State, sid: Sid, session: Option<Session>, pc: FsPc, h: map<Vid, Option<Sid>>): State {
    s.(ids := s.ids[sid := Entry(session, false, Some(pc), None, false)], holder := h)
  }

  lemma {:induction false} FsGoes(s: State, sid: Sid, session: Option<Session>, pc: FsPc, h: map<Vid, Option<Sid>>,
      tid: Tid, ok: bool)
    requires tid !in s.drops
    ensures var t := Mounting(s, sid, session, pc, h);
            var go := FsProceeds(t, sid, pc, ok);
            Step(t, GoFs(sid, tid, ok))
            == s.(ids := s.ids[sid := FsMove(t.ids[sid], pc, go)], holder := FsHolder(t, sid, pc, go),
                  drops := if pc.FsRollback? && session.Some?
                           then s.drops[tid := DropKnown(sid, session.value.kernel, false)] else s.drops)
  {
    var t := Mounting(s, sid, session, pc, h);
    var e := FsMove(t.ids[sid], pc, FsProceeds(t, sid, pc, ok));
    assert t.ids[sid := e] == s.ids[sid := e];
  }

  const BARE := Some(Session(false, None))

  function FsBegun(s: State, sid: Sid, v: Vid): State {
    Mounting(s, sid, BARE, FsCreated(v), s.holder)
  }

  function FsGo(s: State, sid: Sid, tid: Tid, ok: bool): State {
    Step(s, GoFs(sid, tid, ok))
  }

  // Attach granted, then SetMounts found the session.
  lemma {:induction false} FsMounted(s: State, sid: Sid, v: Vid, tid: Tid)
    requires Fresh(s, sid) && tid !in s.drops && Attachable(s, Some(v))
    ensures FsGo(FsGo(FsBegun(s, sid, v), sid, tid, true), sid, tid, true)
            == Mounting(s, sid, BARE, FsAttached(v), Taken(s, sid, Some(v)))
    ensures FsGo(FsGo(Mounting(s, sid, BARE, FsAttached(v), Taken(s, sid, Some(v))), sid, tid, true), sid, tid, true)
            == Created(s, sid, false, Some(v))
  {
    FsGoes(s, sid, BARE, FsCreated(v), s.holder, tid, true);
    FsGoes(s, sid, BARE, FsLooked(v), s.holder, tid, true);
    FsGoes(s, sid, BARE, FsAttached(v), Taken(s, sid, Some(v)), tid, true);
    FsGoes(s, sid, BARE, FsAuthed(v), Taken(s, sid, Some(v)), tid, true);
  }

  // SetMounts did not find it: a sweep has dropped it, and released the hold already.
  lemma {:induction false} FsUnwound(s: State, sid: Sid, v: Vid, tid: Tid)
    requires Fresh(s, sid) && tid !in s.drops
    ensures var t := Mounting(s, sid, None, FsAttached(v), s.holder);
            FsGo(FsGo(FsGo(t, sid, tid, true), sid, tid, true), sid, tid, true) == Untouched(s, sid)
  {
    FsGoes(s, sid, None, FsAttached(v), s.holder, tid, true);
    FsGoes(s, sid, None, FsUnwind(v), s.holder, tid, true);
    FsGoes(s, sid, None, FsRollback, s.holder, tid, true);
  }

  // The session alone, as the handler inserted it.
  function Bare(s: State, sid: Sid): State {
    With(s, sid, Entry(BARE, false, None, None, false), s.holder, 0, s.drops)
  }

  // Attach refused, in its lookup or checks, or under the lock: the session is destroyed again.
  lemma {:induction false} FsRefused(s: State, sid: Sid, v: Vid, tid: Tid, ok: bool)
    requires Fresh(s, sid) && tid !in s.drops && !(Attachable(s, Some(v)) && ok)
    ensures var t := FsGo(FsBegun(s, sid, v), sid, tid, ok);
            (if ok && v in s.indexed then FsGo(FsGo(t, sid, tid, true), sid, tid, true) else FsGo(t, sid, tid, true))
            == DropBegun(Bare(s, sid), sid, tid)
  {
    FsGoes(s, sid, BARE, FsCreated(v), s.holder, tid, ok);
    FsGoes(s, sid, BARE, FsLooked(v), s.holder, tid, true);
    FsGoes(s, sid, BARE, FsRollback, s.holder, tid, true);
  }

  lemma {:induction false} BareDestroyed(s: State, sid: Sid)
    requires Fresh(s, sid)
    ensures Destroyed(Bare(s, sid), sid) == Untouched(s, sid)
  {
    ReleaseRestores(s, Bare(s, sid), sid, None);
    SameEntry(s, sid, Bare(s, sid).ids[sid], BLANK);
  }

  function Twice(sid: Sid, tid: Tid, ok: bool): seq<Action> {
    [] + [GoFs(sid, tid, ok)] + [GoFs(sid, tid, true)]
  }

  function Thrice(sid: Sid, tid: Tid): seq<Action> {
    Twice(sid, tid, true) + [GoFs(sid, tid, true)]
  }

  lemma {:induction false} PlayFs(s: State, sid: Sid, tid: Tid, ok: bool)
    ensures Play(s, Twice(sid, tid, ok)) == FsGo(FsGo(s, sid, tid, ok), sid, tid, true)
    ensures Play(s, Thrice(sid, tid)) == FsGo(FsGo(FsGo(s, sid, tid, true), sid, tid, true), sid, tid, true)
  {
    PlayMore(s, [], GoFs(sid, tid, ok));
    PlayMore(s, [] + [GoFs(sid, tid, ok)], GoFs(sid, tid, true));
    PlayMore(s, [], GoFs(sid, tid, true));
    PlayMore(s, [] + [GoFs(sid, tid, true)], GoFs(sid, tid, true));
    PlayMore(s, Twice(sid, tid, true), GoFs(sid, tid, true));
  }

  // The rest of the request, once the session is in the map. `swept`: a sweep drops the session
  // after Attach has returned and before SetMounts looks it up.
  function MountTrace(s: State, sid: Sid, tid: Tid, v: Vid, attachOk: bool, swept: bool): seq<Action> {
    if !Attaches(s, Some(v), attachOk) then
      (if attachOk && v in s.indexed then Thrice(sid, tid) else Twice(sid, tid, attachOk)) + DropSteps(tid)
    else if swept then Twice(sid, tid, true) + (DestroyTrace(sid, tid) + Thrice(sid, tid))
    else Twice(sid, tid, true) + Twice(sid, tid, true)
  }

  lemma {:induction false} SweptMeanwhile(s: State, sid: Sid, tid: Tid, v: Vid)
    requires Fresh(s, sid) && tid !in s.drops && Attachable(s, Some(v))
    ensures Play(Mounting(s, sid, BARE, FsAttached(v), Taken(s, sid, Some(v))), DestroyTrace(sid, tid))
            == Mounting(s, sid, None, FsAttached(v), s.holder)
  {
    var t := Mounting(s, sid, BARE, FsAttached(v), Taken(s, sid, Some(v)));
    DestroyPlays(t, sid, tid);
    ReleaseRestores(s, t, sid, Some(v));
    SameEntry(s, sid, t.ids[sid], t.ids[sid].(session := None));
  }

  lemma {:induction false} MountPlays(s: State, sid: Sid, tid: Tid, v: Vid, attachOk: bool, swept: bool)
    requires Fresh(s, sid) && tid !in s.drops
    ensures Play(FsBegun(s, sid, v), MountTrace(s, sid, tid, v, attachOk, swept))
            == if Attaches(s, Some(v), attachOk) && !swept then Created(s, sid, false, Some(v)) else Untouched(s, sid)
  {
    var t := FsBegun(s, sid, v);
    PlayFs(t, sid, tid, attachOk);
    if !Attaches(s, Some(v), attachOk) {
      FsRefused(s, sid, v, tid, attachOk);
      PlayOn(t, if attachOk && v in s.indexed then Thrice(sid, tid) else Twice(sid, tid, attachOk), DropSteps(tid));
      DropPlays(Bare(s, sid), sid, tid);
      BareDestroyed(s, sid);
    } else {
      var attached := Mounting(s, sid, BARE, FsAttached(v), Taken(s, sid, Some(v)));
      FsMounted(s, sid, v, tid);
      if swept {
        PlayOn(t, Twice(sid, tid, true), DestroyTrace(sid, tid) + Thrice(sid, tid));
        PlayOn(attached, DestroyTrace(sid, tid), Thrice(sid, tid));
        SweptMeanwhile(s, sid, tid, v);
        PlayFs(Mounting(s, sid, None, FsAttached(v), s.holder), sid, tid, true);
        FsUnwound(s, sid, v, tid);
      } else {
        PlayOn(t, Twice(sid, tid, true), Twice(sid, tid, true));
        PlayFs(attached, sid, tid, true);
      }
    }
  }

  function FsTrace(s: State, sid: Sid, tid: Tid, vol: Option<Vid>, attachOk: bool, swept: bool): seq<Action> {
    [CreateFilesystem(sid, vol)] + (if vol.Some? then MountTrace(s, sid, tid, vol.value, attachOk, swept) else [])
  }

  /** All or nothing for filesystem sessions: the complete session with its mount and hold, or no
      trace but a spent id, also when a sweep takes the session away half-way. */
  lemma {:induction false} FsCreateIsAtomic(s: State, sid: Sid, tid: Tid, vol: Option<Vid>, attachOk: bool, swept: bool)
    requires Fresh(s, sid) && tid !in s.drops
    ensures Play(s, FsTrace(s, sid, tid, vol, attachOk, swept))
            == if vol.None? || (Attaches(s, vol, attachOk) && !swept)
               then Created(s, sid, false, vol) else Untouched(s, sid)
  {
    var rest := if vol.Some? then MountTrace(s, sid, tid, vol.value, attachOk, swept) else [];
    PlayOn(s, [CreateFilesystem(sid, vol)], rest);
    PlayMore(s, [], CreateFilesystem(sid, vol));
    assert [] + [CreateFilesystem(sid, vol)] == [CreateFilesystem(sid, vol)];
    if vol.Some? {
      MountPlays(s, sid, tid, vol.value, attachOk, swept);
    }
  }
}
