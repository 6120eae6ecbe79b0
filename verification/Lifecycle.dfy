/**
 Sessions, resident kernels, kernel slots and read-write volume holds as one concurrent machine.
 Each create request, drop or reap is a thread; each of its lock-protected sections (or atomic
 counter updates) is one step, and the steps of any number of threads interleave freely.
 */
module Lifecycle {
  import opened Options

  type Sid = nat  // session ids; minted fresh
  type Vid = nat  // volume ids; minted fresh, so an id also stands for the Volume object
  type Tid = nat

  // The fields of a *Session that matter here.
  datatype Session = Session(kernel: bool, mount: Option<Vid>)

  // POST /v1/sessions for a filesystem session with a volume, after the session was inserted.
  datatype FsPc =
    | FsCreated(vid: Vid)    // about to Attach
    | FsLooked(vid: Vid)     // Attach has the *Volume, about to take the lock
    | FsAttached(vid: Vid)   // RW hold granted, about to look the session up again
    | FsAuthed(vid: Vid)     // SetMounts found the session, about to record the mount
    | FsUnwind(vid: Vid)     // SetMounts did not find it, about to Release
    | FsRollback             // about to Destroy the session it created

  // POST /v1/sessions for a kernel session, after its id was minted.
  datatype KernelPc =
    | KLooked(vid: Vid)                // Attach has the *Volume, about to take the lock
    | KStart(vol: Option<Vid>)         // about to acquire a kernel slot
    | KSlotRaw(vol: Option<Vid>)       // semaphore acquired, inUse not yet bumped
    | KSlot(vol: Option<Vid>)          // about to start the container
    | KRegistered(vol: Option<Vid>)    // kernel in the engine's map, about to insert the session
    | KGiveBack(vol: Option<Vid>)      // start failed, about to release the semaphore
    | KGaveBack(vol: Option<Vid>)      // released, inUse not yet dropped
    | KUnwind(vol: Option<Vid>)        // Create failed, about to Release the volume

  // Destroy, drop and dropReaped; and Reap with SweepKernels, which lead into dropReaped.
  datatype DropPc =
    | ReapSeen(sid: Sid)               // in Reap's snapshot
    | ReapDone(sid: Sid)               // taken out of the engine's map, about to look the session up
    | DropKnown(sid: Sid, kernel: bool, reaped: bool)   // holds the *Session, about to claim it
    | DropClaimed(sid: Sid, kernel: bool, reaped: bool) // took it out of the map
    | DropFreeing(sid: Sid)            // container gone, about to release the semaphore
    | DropFreed(sid: Sid)              // released, inUse not yet dropped
    | DropLast(sid: Sid)               // about to call OnDrop

  // What the manager, the engine and the create handlers have under one session id.
  datatype Entry = Entry(
    session: Option<Session>,          // Manager.sessions[id]
    resident: bool,                    // id is in KernelEngine.kernels
    fs: Option<FsPc>,                  // the filesystem create that minted the id, while it runs
    create: Option<KernelPc>,          // the kernel create that minted the id, while it runs
    early: bool)                       // history: reaped before its session was inserted

  datatype State = State(
    ids: map<Sid, Entry>,              // every id minted so far
    drops: map<Tid, DropPc>,
    holder: map<Vid, Option<Sid>>,     // Volume.rwHolder of every Volume object ever made
    indexed: set<Vid>,                 // volume Manager.vols
    held: int,                         // slots taken from the kernel semaphore
    inUse: int,                        // Limiter.inUse
    max: nat)                          // Limiter.max

  datatype Action =
    | CreateFilesystem(sid: Sid, vol: Option<Vid>)  // up to and including the insert
    | CreateKernel(sid: Sid, vol: Option<Vid>)      // id minted, volume looked up
    | Drop(tid: Tid, sid: Sid)                      // a Destroy past authed, or a sweep's snapshot
    | Reap(tid: Tid, sid: Sid)                      // Reap's snapshot
    | GoFs(sid: Sid, tid: Tid, ok: bool)            // next step; ok = the outside world cooperates,
    | GoKernel(sid: Sid, ok: bool)                  //   tid = the thread a rollback continues as
    | GoDrop(tid: Tid, ok: bool)
    | NewVolume(vid: Vid)
    | DeleteVolume(vid: Vid)
    | LoseVolume(vid: Vid)                          // SweepOrphans: data dir vanished

  function Start(max: nat): State {
    State(map[], map[], map[], {}, 0, 0, max)
  }

  predicate Listed(s: State, sid: Sid) {
    sid in s.ids && s.ids[sid].session.Some?
  }

  // Release: clears the hold if the volume is indexed and this session holds it.
  function Released(s: State, vid: Vid, sid: Sid): map<Vid, Option<Sid>> {
    if vid in s.indexed && vid in s.holder && s.holder[vid] == Some(sid) then s.holder[vid := None] else s.holder
  }

  // ReleaseAll, over the indexed volumes.
  function ReleasedAll(s: State, sid: Sid): map<Vid, Option<Sid>> {
    map v | v in s.holder :: if v in s.indexed && s.holder[v] == Some(sid) then None else s.holder[v]
  }

  // The locked part of Attach grants a free volume, or one this session holds already.
  predicate Grantable(s: State, vid: Vid, sid: Sid) {
    vid in s.holder && (s.holder[vid] == None || s.holder[vid] == Some(sid))
  }

  function Step(s: State, a: Action): State {
    match a
    case GoFs(sid, tid, ok) =>
      if sid in s.ids && s.ids[sid].fs.Some? && tid !in s.drops then FsStep(s, sid, tid, ok) else s
    case GoKernel(sid, ok) =>
      if sid in s.ids && s.ids[sid].create.Some? then KernelStep(s, sid, ok) else s
    case GoDrop(tid, ok) =>
      if tid in s.drops && s.drops[tid].sid in s.ids then DropStep(s, tid, ok) else s
    case _ => BeginStep(s, a)
  }

  // First steps, and the volume manager's own operations.
  function BeginStep(s: State, a: Action): State {
    match a
    case CreateFilesystem(sid, vol) =>
      if sid in s.ids then s
      else
        var pc := if vol.Some? then Some(FsCreated(vol.value)) else None;
        s.(ids := s.ids[sid := Entry(Some(Session(false, None)), false, pc, None, false)])
    case CreateKernel(sid, vol) =>
      if sid in s.ids || (vol.Some? && vol.value !in s.indexed) then s
      else
        var pc := if vol.Some? then KLooked(vol.value) else KStart(None);
        s.(ids := s.ids[sid := Entry(None, false, None, Some(pc), false)])
    case Drop(tid, sid) =>
      if tid in s.drops || !Listed(s, sid) then s
      else s.(drops := s.drops[tid := DropKnown(sid, s.ids[sid].session.value.kernel, false)])
    case Reap(tid, sid) =>
      if tid !in s.drops && sid in s.ids && s.ids[sid].resident then s.(drops := s.drops[tid := ReapSeen(sid)]) else s
    case NewVolume(vid) =>
      if vid in s.holder then s else s.(holder := s.holder[vid := None], indexed := s.indexed + {vid})
    case DeleteVolume(vid) =>
      if vid in s.holder && s.holder[vid] == None then s.(indexed := s.indexed - {vid}) else s
    case LoseVolume(vid) =>
      s.(indexed := s.indexed - {vid})
    case _ => s
  }

  // ------------------------------------------------------------ filesystem create

  // Whether the step succeeds: lookup in the index, grant of the hold, anything else up to the world.
  predicate FsProceeds(s: State, sid: Sid, pc: FsPc, ok: bool) {
    ok && (pc.FsCreated? ==> pc.vid in s.indexed) && (pc.FsLooked? ==> Grantable(s, pc.vid, sid))
  }

  function FsMove(e: Entry, pc: FsPc, go: bool): Entry {
    match pc
    case FsCreated(vid) => e.(fs := Some(if go then FsLooked(vid) else FsRollback))
    case FsLooked(vid) => e.(fs := Some(if go then FsAttached(vid) else FsRollback))
    case FsAttached(vid) => e.(fs := Some(if e.session.Some? then FsAuthed(vid) else FsUnwind(vid)))
    case FsAuthed(vid) =>
      e.(fs := None, session := if e.session.Some? then Some(e.session.value.(mount := Some(vid))) else None)
    case FsUnwind(_) => e.(fs := Some(FsRollback))
    case FsRollback => e.(fs := None)
  }

  function FsHolder(s: State, sid: Sid, pc: FsPc, go: bool): map<Vid, Option<Sid>> {
    if pc.FsLooked? && go then s.holder[pc.vid := Some(sid)]
    else if pc.FsUnwind? then Released(s, pc.vid, sid)
    else s.holder
  }

  function FsStep(s: State, sid: Sid, tid: Tid, ok: bool): State
    requires sid in s.ids && s.ids[sid].fs.Some? && tid !in s.drops
  {
    var e, pc := s.ids[sid], s.ids[sid].fs.value;
    var go := FsProceeds(s, sid, pc, ok);
    s.(ids := s.ids[sid := FsMove(e, pc, go)],
       holder := FsHolder(s, sid, pc, go),
       drops := if pc.FsRollback? && e.session.Some?
                then s.drops[tid := DropKnown(sid, e.session.value.kernel, false)] else s.drops)
  }

  // ------------------------------------------------------------ kernel create

  predicate KernelProceeds(s: State, sid: Sid, pc: KernelPc, ok: bool) {
    ok && (pc.KLooked? ==> Grantable(s, pc.vid, sid)) && (pc.KStart? ==> s.held < s.max)
  }

  function KernelMove(e: Entry, pc: KernelPc, go: bool): Entry {
    match pc
    case KLooked(vid) => e.(create := if go then Some(KStart(Some(vid))) else None)
    case KStart(vol) => e.(create := Some(if go then KSlotRaw(vol) else KUnwind(vol)))
    case KSlotRaw(vol) => e.(create := Some(KSlot(vol)))
    case KSlot(vol) => e.(create := Some(if go then KRegistered(vol) else KGiveBack(vol)), resident := e.resident || go)
    case KRegistered(vol) => e.(create := None, session := Some(Session(true, vol)))
    case KGiveBack(vol) => e.(create := Some(KGaveBack(vol)))
    case KGaveBack(vol) => e.(create := Some(KUnwind(vol)))
    case KUnwind(_) => e.(create := None)
  }

  function KernelHolder(s: State, sid: Sid, pc: KernelPc, go: bool): map<Vid, Option<Sid>> {
    if pc.KLooked? && go then s.holder[pc.vid := Some(sid)]
    else if pc.KUnwind? && pc.vol.Some? then Released(s, pc.vol.value, sid)
    else s.holder
  }

  function KernelStep(s: State, sid: Sid, ok: bool): State
    requires sid in s.ids && s.ids[sid].create.Some?
  {
    var e, pc := s.ids[sid], s.ids[sid].create.value;
    var go := KernelProceeds(s, sid, pc, ok);
    s.(ids := s.ids[sid := KernelMove(e, pc, go)],
       holder := KernelHolder(s, sid, pc, go),
       held := if pc.KStart? && go then s.held + 1 else if pc.KGiveBack? then s.held - 1 else s.held,
       inUse := if pc.KSlotRaw? then s.inUse + 1 else if pc.KGaveBack? then s.inUse - 1 else s.inUse)
  }

  // ------------------------------------------------------------ drops and reaps

  function DropMove(e: Entry, pc: DropPc, ok: bool): Entry {
    match pc
    case ReapSeen(_) => e.(resident := e.resident && !ok)
    case ReapDone(_) => e.(early := e.early || (e.session.None? && e.create.Some?))
    case DropKnown(_, _, _) => e.(session := None)
    case DropClaimed(_, kernel, reaped) => e.(resident := e.resident && (!kernel || reaped))
    case _ => e
  }

  function DropNext(e: Entry, pc: DropPc, ok: bool): Option<DropPc> {
    match pc
    case ReapSeen(sid) => if ok then Some(ReapDone(sid)) else None
    case ReapDone(sid) => if e.session.Some? then Some(DropKnown(sid, e.session.value.kernel, true)) else None
    case DropKnown(sid, kernel, reaped) => if e.session.Some? then Some(DropClaimed(sid, kernel, reaped)) else None
    case DropClaimed(sid, kernel, _) => Some(if kernel then DropFreeing(sid) else DropLast(sid))
    case DropFreeing(sid) => Some(DropFreed(sid))
    case DropFreed(sid) => Some(DropLast(sid))
    case DropLast(_) => None
  }

  function DropStep(s: State, tid: Tid, ok: bool): State
    requires tid in s.drops && s.drops[tid].sid in s.ids
  {
    var pc := s.drops[tid];
    var e := s.ids[pc.sid];
    var next := DropNext(e, pc, ok);
    s.(ids := s.ids[pc.sid := DropMove(e, pc, ok)],
       drops := if next.Some? then s.drops[tid := next.value] else s.drops - {tid},
       holder := if pc.DropLast? then ReleasedAll(s, pc.sid) else s.holder,
       held := if pc.DropFreeing? then s.held - 1 else s.held,
       inUse := if pc.DropFreed? then s.inUse - 1 else s.inUse)
  }

  function Run(max: nat, actions: seq<Action>): State {
    if actions == [] then Start(max) else Step(Run(max, actions[..|actions| - 1]), actions[|actions| - 1])
  }
}
