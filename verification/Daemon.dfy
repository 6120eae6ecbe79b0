/**
 The handlers as the program runs them, on the manager's, the engine's, the semaphore's and the
 volume manager's own fields. Each is proved to take the lifecycle machine through its request.
 */
module Daemon {
  import opened Options
  import opened Lifecycle
  import opened LifecycleIds
  import opened LifecycleSlots
  import opened LifecycleHolds
  import opened LifecycleRuns
  import opened Handlers
  import Sums

  // The fields of a server, as a value.
  datatype Fields = Fields(
    sessions: map<Sid, Session>, kernels: set<Sid>, held: int, inUse: int, max: nat,
    holder: map<Vid, Option<Sid>>, indexed: set<Vid>)

  // The server is in the machine's state.
  ghost predicate Mirrors(f: Fields, s: State) {
    && (forall i :: i in f.sessions <==> Listed(s, i))
    && (forall i :: i in f.sessions ==> s.ids[i].session == Some(f.sessions[i]))
    && (forall i :: i in f.kernels <==> i in s.ids && s.ids[i].resident)
    && f.held == s.held && f.inUse == s.inUse && f.max == s.max && f.holder == s.holder && f.indexed == s.indexed
  }

  // A complete session more.
  function WithSession(f: Fields, sid: Sid, kernel: bool, vol: Option<Vid>): Fields {
    f.(sessions := f.sessions[sid := Session(kernel, vol)],
       kernels := if kernel then f.kernels + {sid} else f.kernels,
       held := if kernel then f.held + 1 else f.held,
       inUse := if kernel then f.inUse + 1 else f.inUse,
       holder := if vol.Some? then f.holder[vol.value := Some(sid)] else f.holder)
  }

  // All of a session less: with it its kernel, its slot and its holds on indexed volumes.
  function WithoutSession(f: Fields, sid: Sid): Fields
    requires sid in f.sessions
  {
    f.(sessions := f.sessions - {sid},
       kernels := if f.sessions[sid].kernel then f.kernels - {sid} else f.kernels,
       held := f.held - SlotOf(f.sessions[sid]),
       inUse := f.inUse - SlotOf(f.sessions[sid]),
       holder := Cleared(f.holder, f.indexed, sid))
  }

  function Cleared(holder: map<Vid, Option<Sid>>, indexed: set<Vid>, sid: Sid): map<Vid, Option<Sid>> {
    map v | v in holder :: if v in indexed && holder[v] == Some(sid) then None else holder[v]
  }

  // The id is in use nowhere.
  predicate Unused(f: Fields, sid: Sid) {
    && sid !in f.sessions && sid !in f.kernels && f.indexed <= f.holder.Keys
    && forall v :: v in f.holder ==> f.holder[v] != Some(sid)
  }

  predicate Free(f: Fields, vol: Option<Vid>, checksOk: bool) {
    vol.Some? ==> checksOk && vol.value in f.indexed && vol.value in f.holder && f.holder[vol.value] == None
  }

  lemma {:induction false} MirrorsCreated(f: Fields, s: State, sid: Sid, kernel: bool, vol: Option<Vid>)
    requires Mirrors(f, s) && sid !in s.ids
    ensures Mirrors(WithSession(f, sid, kernel, vol), Created(s, sid, kernel, vol))
  {
  }

  lemma {:induction false} MirrorsUntouched(f: Fields, s: State, sid: Sid)
    requires Mirrors(f, s) && sid !in s.ids
    ensures Mirrors(f, Untouched(s, sid))
  {
  }

  lemma {:induction false} MirrorsDestroyed(f: Fields, s: State, sid: Sid)
    requires Mirrors(f, s) && Listed(s, sid)
    ensures Mirrors(WithoutSession(f, sid), Destroyed(s, sid))
  {
    assert Cleared(f.holder, f.indexed, sid) == ReleasedAll(s, sid);
  }

  // A listed kernel session has a slot to give back.
  lemma {:induction false} ListedHasSlot(s: State, sid: Sid)
    requires Slots(s) && Listed(s, sid)
    ensures s.held >= SlotOf(s.ids[sid].session.value)
    ensures EntrySane(s.ids[sid]) ==> s.inUse >= SlotOf(s.ids[sid].session.value)
  {
    Sums.TallyRemove(s.ids, EntrySlots, sid);
    Sums.TallyRemove(s.ids, EntryInUse, sid);
  }

  class Server {
    var sessions: map<Sid, Session>    // Manager.sessions
    var kernels: set<Sid>              // KernelEngine.kernels
    var held: int                      // the slot semaphore
    var inUse: int                     // Limiter.inUse
    const max: nat                     // Limiter.max
    var holder: map<Vid, Option<Sid>>  // rwHolder, by Volume object
    var indexed: set<Vid>              // the volume manager's vols

    ghost function Now(): Fields
      reads this
    {
      Fields(sessions, kernels, held, inUse, max, holder, indexed)
    }

    constructor (max: int)
      ensures Mirrors(Now(), Start(this.max)) && this.max >= 1 && (max >= 1 ==> this.max == max)
    {
      sessions, kernels, held, inUse, holder, indexed := map[], {}, 0, 0, map[], {};
      this.max := if max < 1 then 1 else max;
    }

    // ---------------------------------------------------------------- volumes

    // Lookup and checks, then the lock.
    method Attach(vid: Vid, sid: Sid, checksOk: bool) returns (granted: bool)
      requires indexed <= holder.Keys
      modifies `holder
      ensures granted == (vid in indexed && checksOk && (old(holder)[vid] == None || old(holder)[vid] == Some(sid)))
      ensures holder == if granted then old(holder)[vid := Some(sid)] else old(holder)
    {
      if vid !in indexed || !checksOk {
        return false;
      }
      if holder[vid].Some? && holder[vid].value != sid {
        return false;
      }
      holder := holder[vid := Some(sid)];
      return true;
    }

    method Release(vid: Vid, sid: Sid)
      requires indexed <= holder.Keys
      modifies `holder
      ensures holder == if vid in indexed && old(holder)[vid] == Some(sid)
                        then old(holder)[vid := None] else old(holder)
    {
      if vid in indexed && holder[vid] == Some(sid) {
        holder := holder[vid := None];
      }
    }

    // Exactly this session's holds on indexed volumes go.
    method ReleaseAll(sid: Sid)
      requires indexed <= holder.Keys
      modifies `holder
      ensures holder == Cleared(old(holder), indexed, sid)
    {
      var todo := indexed;
      while todo != {}
        invariant todo <= indexed && holder.Keys == old(holder).Keys
        invariant forall v :: v in holder ==>
          holder[v] == if v in indexed - todo && old(holder)[v] == Some(sid) then None else old(holder)[v]
        decreases todo
      {
        var v :| v in todo;
        todo := todo - {v};
        if holder[v] == Some(sid) {
          holder := holder[v := None];
        }
      }
    }

    // DELETE of a volume. At that moment no listed session has it mounted.
    method RemoveVolume(vid: Vid, ghost s: State) returns (deleted: bool)
      requires Good(s) && Mirrors(Now(), s)
      modifies `indexed
      ensures Mirrors(Now(), Step(s, DeleteVolume(vid)))
      ensures deleted == (vid in old(indexed) && vid in holder && holder[vid] == None)
      ensures deleted ==> forall i :: i in sessions ==> sessions[i].mount != Some(vid)
      ensures !deleted ==> indexed == old(indexed)
    {
      assert HoldSane(s, vid);
      if vid !in indexed || holder[vid].Some? {
        return false;
      }
      forall i | i in sessions
        ensures sessions[i].mount != Some(vid)
      {
        assert ReliesSane(s, i, vid);
      }
      indexed := indexed - {vid};
      return true;
    }

    // ---------------------------------------------------------------- sessions

    // The body of Destroy and drop: whoever takes the session out of the map cleans up after it.
    method Discard(sid: Sid) returns (found: bool)
      requires indexed <= holder.Keys
      modifies this
      ensures found == (sid in old(sessions))
      ensures Now() == if found then WithoutSession(old(Now()), sid) else old(Now())
    {
      if sid !in sessions {
        return false;
      }
      var session := sessions[sid];
      sessions := sessions - {sid};
      if session.kernel {
        kernels := kernels - {sid};
        held := held - 1;
        inUse := inUse - 1;
      }
      ReleaseAll(sid);
      return true;
    }

    /** DELETE of a session, run in one go, takes the machine through its request; a second one finds
        nothing and changes nothing; the slot it gives back was held. */
    method Destroy(sid: Sid, tid: Tid, ghost s: State) returns (found: bool)
      requires Good(s) && Mirrors(Now(), s) && tid !in s.drops
      modifies this
      ensures found == Listed(s, sid)
      ensures Mirrors(Now(), if found then Play(s, DestroyTrace(sid, tid)) else s)
      ensures sid !in sessions && held >= 0 && inUse >= 0
      ensures !found ==> Now() == old(Now())
    {
      assert IdSane(s, sid);
      ReleaseNeverPanics(s);
      forall v
        ensures v in s.indexed ==> v in s.holder
      {
        assert HoldSane(s, v);
      }
      if Listed(s, sid) {
        DestroyPlays(s, sid, tid);
        MirrorsDestroyed(Now(), s, sid);
        ListedHasSlot(s, sid);
      }
      found := Discard(sid);
    }

    // createKernelSession: attach, acquire, start, insert, with each failure's rollback.
    method KernelRequest(sid: Sid, vol: Option<Vid>, attachOk: bool, slotOk: bool, startOk: bool)
      returns (created: bool)
      requires Unused(Now(), sid)
      modifies this
      ensures created == (Free(old(Now()), vol, attachOk) && slotOk && old(held) < max && startOk)
      ensures Now() == if created then WithSession(old(Now()), sid, true, vol) else old(Now())
    {
      if vol.Some? {
        var granted := Attach(vol.value, sid, attachOk);
        if !granted {
          return false;
        }
      }
      if !slotOk || held >= max {
        Undo(sid, vol, old(holder));
        return false;
      }
      held, inUse := held + 1, inUse + 1;
      if !startOk {
        held, inUse := held - 1, inUse - 1;
        Undo(sid, vol, old(holder));
        return false;
      }
      kernels := kernels + {sid};
      sessions := sessions[sid := Session(true, vol)];
      return true;
    }

    // The handler's own rollback: give the hold back, if there is one.
    method Undo(sid: Sid, vol: Option<Vid>, ghost before: map<Vid, Option<Sid>>)
      requires indexed <= holder.Keys
      requires vol.Some? ==> vol.value in indexed && vol.value in before && before[vol.value] == None
      requires holder == if vol.Some? then before[vol.value := Some(sid)] else before
      modifies `holder
      ensures holder == before
    {
      if vol.Some? {
        Release(vol.value, sid);
        assert before[vol.value := Some(sid)][vol.value := None] == before;
      }
    }

    // handleCreateSession for a filesystem session. `swept`: a sweep drops the session between
    // Attach and SetMounts.
    method FilesystemRequest(sid: Sid, vol: Option<Vid>, attachOk: bool, swept: bool) returns (created: bool)
      requires Unused(Now(), sid)
      modifies this
      ensures created == (Free(old(Now()), vol, attachOk) && (vol.Some? ==> !swept))
      ensures Now() == if created then WithSession(old(Now()), sid, false, vol) else old(Now())
    {
      sessions := sessions[sid := Session(false, None)];
      if vol.None? {
        return true;
      }
      var granted := Attach(vol.value, sid, attachOk);
      if !granted {
        var _ := Discard(sid);
        assert holder == old(holder) && sessions == old(sessions);
        return false;
      }
      if swept {
        var _ := Discard(sid);
        assert holder == old(holder);
      }
      if sid !in sessions {  // SetMounts
        Release(vol.value, sid);
        var _ := Discard(sid);
        assert holder == old(holder) && sessions == old(sessions);
        return false;
      }
      sessions := sessions[sid := sessions[sid].(mount := vol)];
      return true;
    }

    /** The kernel create, run in one go, takes the machine through its request: complete or not at all. */
    method CreateKernelSession(sid: Sid, vol: Option<Vid>, attachOk: bool, slotOk: bool, startOk: bool, ghost s: State)
      returns (created: bool)
      requires Good(s) && Mirrors(Now(), s) && sid !in s.ids
      modifies this
      ensures Mirrors(Now(), Play(s, KernelTrace(sid, vol, attachOk, slotOk, startOk)))
      ensures created == KernelSucceeds(s, vol, attachOk, slotOk, startOk)
      ensures Now() == if created then WithSession(old(Now()), sid, true, vol) else old(Now())
    {
      GoodIsFresh(s, sid);
      KernelCreateIsAtomic(s, sid, vol, attachOk, slotOk, startOk);
      MirrorsCreated(Now(), s, sid, true, vol);
      MirrorsUntouched(Now(), s, sid);
      created := KernelRequest(sid, vol, attachOk, slotOk, startOk);
    }

    /** So does the filesystem create. */
    method CreateFilesystemSession(sid: Sid, tid: Tid, vol: Option<Vid>, attachOk: bool, swept: bool, ghost s: State)
      returns (created: bool)
      requires Good(s) && Mirrors(Now(), s) && sid !in s.ids && tid !in s.drops
      modifies this
      ensures Mirrors(Now(), Play(s, FsTrace(s, sid, tid, vol, attachOk, swept)))
      ensures created == (vol.None? || (Attaches(s, vol, attachOk) && !swept))
      ensures Now() == if created then WithSession(old(Now()), sid, false, vol) else old(Now())
    {
      GoodIsFresh(s, sid);
      FsCreateIsAtomic(s, sid, tid, vol, attachOk, swept);
      MirrorsCreated(Now(), s, sid, false, vol);
      MirrorsUntouched(Now(), s, sid);
      created := FilesystemRequest(sid, vol, attachOk, swept);
    }
  }
}
