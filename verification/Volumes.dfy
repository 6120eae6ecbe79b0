/**
 Volumes on disk: the steps of Create and Delete, the lock-free walk of SweepOrphans, a clock that
 advances between them, a crash between any two of them, and the scan that rebuilds the index.
 */
module Volumes {
  import opened Options

  // A directory <tenant>/<id> whose names have the right shape. Ids are minted fresh.
  type Key = nat

  datatype Meta = Meta(key: Key, name: string)

  // meta.json: parsed, or present but unreadable.
  datatype MetaFile = Garbled | Parsed(meta: Meta)

  // mtime: when an entry of the directory was last added or taken away.
  datatype Dir = Dir(data: bool, tmp: bool, meta: Option<MetaFile>, mtime: int)

  // A directory is a volume if its meta.json parses and agrees with its own path.
  predicate IsVolume(k: Key, d: Dir) {
    d.meta.Some? && d.meta.value.Parsed? && d.meta.value.meta.key == k
  }

  function ScanIndex(disk: map<Key, Dir>): map<Key, Meta> {
    map k | k in disk && IsVolume(k, disk[k]) :: disk[k].meta.value.meta
  }

  function ScanDisk(disk: map<Key, Dir>): map<Key, Dir> {
    map k | k in disk && IsVolume(k, disk[k]) :: disk[k]
  }

  // ------------------------------------------------------------------ the start-up scan

  // What a tenant directory can hold: directories with the shape of an id, and anything else.
  datatype Name = Proper(key: Key) | Stray(n: nat)

  function Keys(tree: map<Name, Dir>): set<Key> {
    set n | n in tree && n.Proper? :: n.key
  }

  function Dirs(tree: map<Name, Dir>): map<Key, Dir> {
    map k | k in Keys(tree) :: tree[Proper(k)]
  }

  class Manager {
    var vols: map<Key, Meta>
    var tree: map<Name, Dir>

    // Index what is a volume, remove everything else, in directory order.
    method Scan()
      modifies this
      ensures vols == ScanIndex(Dirs(old(tree))) && Dirs(tree) == ScanDisk(Dirs(old(tree)))
      ensures forall n :: n in tree ==> n.Proper?
    {
      vols := map[];
      var before := tree;
      var todo := tree.Keys;
      while todo != {}
        invariant todo <= before.Keys
        invariant forall n :: n in tree <==> n in before && (n in todo || (n.Proper? && IsVolume(n.key, before[n])))
        invariant forall n :: n in tree ==> tree[n] == before[n]
        invariant forall k :: k in vols <==> Proper(k) in before && Proper(k) !in todo && IsVolume(k, before[Proper(k)])
        invariant forall k :: k in vols ==> vols[k] == before[Proper(k)].meta.value.meta
        decreases todo
      {
        var n :| n in todo;
        todo := todo - {n};
        if n.Stray? {
          tree := tree - {n};
        } else if tree[n].meta.None? || tree[n].meta.value.Garbled? || tree[n].meta.value.meta.key != n.key {
          tree := tree - {n};
        } else {
          vols := vols[n.key := tree[n].meta.value.meta];
        }
      }
      ScannedDirs(before, tree);
    }
  }

  lemma ScannedDirs(before: map<Name, Dir>, after: map<Name, Dir>)
    requires forall n :: n in after <==> n in before && n.Proper? && IsVolume(n.key, before[n])
    requires forall n :: n in after ==> after[n] == before[n]
    ensures Dirs(after) == ScanDisk(Dirs(before))
    ensures forall k :: k in ScanIndex(Dirs(before)) <==> Proper(k) in before && IsVolume(k, before[Proper(k)])
  {
    forall k
      ensures k in Keys(before) <==> Proper(k) in before
      ensures k in Keys(after) <==> Proper(k) in after
    {
      assert Proper(k) in before ==> Proper(k).key in Keys(before);
      assert Proper(k) in after ==> Proper(k).key in Keys(after);
    }
  }

  // ------------------------------------------------------------------ runs

  const ORPHAN_GRACE: nat := 60_000_000_000  // nanoseconds

  // How far a Create has come; it holds the manager's lock throughout.
  datatype Stage = MadeDir | MadeData | Opened | WroteTmp | Renamed

  datatype Making = Making(meta: Meta, stage: Stage)

  // A directory SweepOrphans found unindexed and without valid metadata: when it read the metadata,
  // and the modification time once it has called stat.
  datatype Look = Look(key: Key, readAt: nat, mtime: Option<int>)

  // One pass of SweepOrphans: its snapshot of the index, and the directory it is looking at.
  datatype Walk = Walk(known: set<Key>, look: Option<Look>)

  // The pace of the machine: a Create gets from its first mkdir to its rename within `create`, and
  // a walk from reading a directory's metadata to its decision within `look`.
  datatype Pace = Pace(create: nat, look: nat)

  datatype State = State(
    pace: Pace,
    clock: nat,
    disk: map<Key, Dir>,
    index: map<Key, Meta>,            // Manager.vols
    making: Option<Making>,           // the Create that holds the lock
    walks: map<nat, Walk>,
    removing: set<Key>,               // RemoveAll under way: a Delete, a failed Create, an orphan
    seen: set<Key>,                   // history: every id minted or ever on disk
    born: map<Key, Meta>,             // history: every id minted, or found by the first scan
    began: map<Key, nat>,             // history: when each Create made its directory
    promised: map<Key, Meta>)         // history: Create returned, Delete not called since

  datatype Part = DataDir | TmpFile | MetaJson | WholeDir

  datatype Action =
    | Tick(now: nat)
    | Create(key: Key, name: string)  // lock taken, checks passed, id minted, MkdirAll's first mkdir
    | Go(ok: bool)                    // the Create's next step, or its failure
    | Delete(key: Key)                // index entry removed under the lock
    | Remove(key: Key, part: Part)    // RemoveAll takes one more thing away
    | Snapshot(w: nat)                // SweepOrphans copies the index under the lock
    | ReadMeta(w: nat, key: Key)      // the next directory of the walk
    | Stat(w: nat)
    | Decide(w: nat)                  // compares the clock with the modification time
    | DropVanished(key: Key)          // the walk's end: index entries without a data directory
    | Restart                         // crash at any point, then scan

  function Start(disk: map<Key, Dir>, pace: Pace): State {
    State(pace, 0, ScanDisk(disk), ScanIndex(disk), None, map[], {}, disk.Keys, ScanIndex(disk), map[],
          map k | k in ScanIndex(disk) && disk[k].data :: ScanIndex(disk)[k])
  }

  function Step(s: State, a: Action): State {
    match a
    case Tick(now) => if now < s.clock || !OnTime(s, now) then s else s.(clock := now)
    case Create(key, name) => if s.making.Some? || key in s.seen then s else BeginStep(s, key, name)
    case Go(ok) => if s.making.None? then s else CreateStep(s, s.making.value, ok)
    case Delete(key) => if s.making.Some? || key !in s.index then s else DeleteStep(s, key)
    case Remove(key, part) => if key !in s.removing || key !in s.disk then s else RemoveStep(s, key, part)
    case DropVanished(key) => if s.making.Some? || key !in s.index then s else VanishStep(s, key)
    case Restart => Restarted(s)
    case _ => WalkStep(s, a)
  }

  function BeginStep(s: State, key: Key, name: string): State {
    s.(disk := s.disk[key := Dir(false, false, None, s.clock)],
       making := Some(Making(Meta(key, name), MadeDir)),
       seen := s.seen + {key}, born := s.born[key := Meta(key, name)], began := s.began[key := s.clock])
  }

  function DeleteStep(s: State, key: Key): State {
    s.(index := s.index - {key}, promised := s.promised - {key},
       removing := if key in s.disk then s.removing + {key} else s.removing)
  }

  function VanishStep(s: State, key: Key): State {
    if key in s.disk && s.disk[key].data then s else s.(index := s.index - {key})
  }

  function Restarted(s: State): State {
    s.(disk := ScanDisk(s.disk), index := ScanIndex(s.disk), making := None, walks := map[], removing := {})
  }

  predicate Unfinished(s: State) {
    s.making.Some? && s.making.value.stage != Renamed
  }

  // Time passes only as far as the pace allows.
  predicate OnTime(s: State, now: nat) {
    && (Unfinished(s) && s.making.value.meta.key in s.began ==> now <= s.began[s.making.value.meta.key] + s.pace.create)
    && forall w :: w in s.walks && s.walks[w].look.Some? ==> now <= s.walks[w].look.value.readAt + s.pace.look
  }

  predicate IsMaking(s: State, key: Key) {
    s.making.Some? && s.making.value.meta.key == key
  }

  function CreateStep(s: State, m: Making, ok: bool): State {
    if m.stage == Renamed then CreateReturns(s, m.meta)
    else if !ok then CreateFails(s, m)
    else if m.meta.key !in s.disk then s  // the directory is gone: only failure is left
    else CreateAdvances(s, m)
  }

  function CreateReturns(s: State, meta: Meta): State {
    s.(index := s.index[meta.key := meta], promised := s.promised[meta.key := meta], making := None)
  }

  // A failing MkdirAll leaves what it made; the later failures call RemoveAll.
  function CreateFails(s: State, m: Making): State {
    s.(making := None,
       removing := if m.stage == MadeDir || m.meta.key !in s.disk then s.removing else s.removing + {m.meta.key})
  }

  function CreateAdvances(s: State, m: Making): State
    requires m.meta.key in s.disk
  {
    s.(disk := s.disk[m.meta.key := Advanced(s.disk[m.meta.key], m, s.clock)],
       making := Some(m.(stage := NextStage(m.stage))))
  }

  function NextStage(stage: Stage): Stage {
    match stage
    case MadeDir => MadeData
    case MadeData => Opened
    case Opened => WroteTmp
    case _ => Renamed
  }

  // chmod of the data directory does not touch the volume's own modification time.
  function Advanced(d: Dir, m: Making, clock: nat): Dir {
    match m.stage
    case MadeDir => d.(data := true, mtime := clock)
    case MadeData => d
    case Opened => d.(tmp := true, mtime := clock)
    case _ => d.(tmp := false, meta := Some(Parsed(m.meta)), mtime := clock)
  }

  // Children first, in any order; the directory itself once it is empty.
  function RemoveStep(s: State, key: Key, part: Part): State
    requires key in s.disk
  {
    var d := s.disk[key];
    match part
    case DataDir => s.(disk := s.disk[key := d.(data := false, mtime := s.clock)])
    case TmpFile => s.(disk := s.disk[key := d.(tmp := false, mtime := s.clock)])
    case MetaJson => s.(disk := s.disk[key := d.(meta := None, mtime := s.clock)])
    case WholeDir =>
      if d.data || d.tmp || d.meta.Some? then s else s.(disk := s.disk - {key}, removing := s.removing - {key})
  }

  // The walk holds no lock from its snapshot to its end.
  function WalkStep(s: State, a: Action): State {
    match a
    case Snapshot(w) =>
      if s.making.Some? then s else s.(walks := s.walks[w := Walk(s.index.Keys, None)])
    case ReadMeta(w, key) =>
      if w !in s.walks || s.walks[w].look.Some? || key !in s.disk || key in s.walks[w].known
        || IsVolume(key, s.disk[key]) then s
      else s.(walks := s.walks[w := s.walks[w].(look := Some(Look(key, s.clock, None)))])
    case Stat(w) =>
      if w !in s.walks || s.walks[w].look.None? then s
      else s.(walks := s.walks[w := Statted(s, s.walks[w], s.walks[w].look.value)])
    case Decide(w) =>
      if w !in s.walks || s.walks[w].look.None? || s.walks[w].look.value.mtime.None? then s
      else DecideStep(s, w, s.walks[w], s.walks[w].look.value)
    case _ => s
  }

  // A directory that has vanished meanwhile needs no removal.
  function Statted(s: State, walk: Walk, l: Look): Walk {
    walk.(look := if l.key in s.disk then Some(l.(mtime := Some(s.disk[l.key].mtime))) else None)
  }

  function DecideStep(s: State, w: nat, walk: Walk, l: Look): State
    requires l.mtime.Some?
  {
    s.(walks := s.walks[w := walk.(look := None)],
       removing := if s.clock - l.mtime.value >= ORPHAN_GRACE && l.key in s.disk
                   then s.removing + {l.key} else s.removing)
  }

  function Run(disk: map<Key, Dir>, pace: Pace, actions: seq<Action>): State {
    if actions == [] then Start(disk, pace) else Step(Run(disk, pace, actions[..|actions| - 1]), actions[|actions| - 1])
  }

  // ------------------------------------------------------------------ whatever the pace

  // What a meta.json can say: nothing, or what its volume was created with.
  predicate KeyBase(s: State, k: Key) {
    && (k in s.disk || k in s.index || k in s.born || k in s.began ==> k in s.seen)
    && (k in s.disk && IsVolume(k, s.disk[k]) ==> k in s.born)
    && (k in s.born ==> s.born[k].key == k)
    && (k in s.born && k in s.disk ==> s.disk[k].meta.None? || s.disk[k].meta == Some(Parsed(s.born[k])))
    && (k in s.removing ==> k in s.disk)
    && (k in s.began ==> s.began[k] <= s.clock && (k in s.disk ==> s.began[k] <= s.disk[k].mtime))
    && (IsMaking(s, k) ==> k in s.born && s.born[k] == s.making.value.meta && k in s.began && k !in s.index)
  }

  ghost predicate Base(s: State) {
    forall k :: KeyBase(s, k)
  }

  lemma {:induction false} CreateStepBase(s: State, ok: bool, k: Key)
    requires Base(s) && s.making.Some?
    ensures KeyBase(CreateStep(s, s.making.value, ok), k)
  {
    assert KeyBase(s, k) && KeyBase(s, s.making.value.meta.key);
  }

  lemma {:induction false} RemoveStepBase(s: State, key: Key, part: Part, k: Key)
    requires Base(s) && key in s.disk && key in s.removing
    ensures KeyBase(RemoveStep(s, key, part), k)
  {
    assert KeyBase(s, k) && KeyBase(s, key);
  }

  lemma {:induction false} WalkStepBase(s: State, a: Action, k: Key)
    requires Base(s)
    ensures KeyBase(WalkStep(s, a), k)
  {
    assert KeyBase(s, k);
  }

  lemma {:induction false} StepBase(s: State, a: Action, k: Key)
    requires Base(s)
    ensures KeyBase(Step(s, a), k)
  {
    assert KeyBase(s, k);
    if a.Go? && s.making.Some? {
      CreateStepBase(s, a.ok, k);
    } else if a.Remove? && a.key in s.removing && a.key in s.disk {
      RemoveStepBase(s, a.key, a.part, k);
    } else if a.Snapshot? || a.ReadMeta? || a.Stat? || a.Decide? {
      WalkStepBase(s, a, k);
    }
  }

  lemma {:induction false} StepKeepsPace(s: State, a: Action)
    ensures Step(s, a).pace == s.pace
  {
    match a {
      case Tick(_) =>
      case Create(_, _) =>
      case Go(ok) =>
      case Delete(_) =>
      case Remove(_, _) =>
      case DropVanished(_) =>
      case Restart =>
      case _ =>
    }
  }

  lemma {:induction false} StartBase(disk: map<Key, Dir>, pace: Pace, k: Key)
    ensures KeyBase(Start(disk, pace), k)
  {
  }

  lemma {:induction false} EveryRunIsBase(disk: map<Key, Dir>, pace: Pace, actions: seq<Action>)
    ensures Base(Run(disk, pace, actions)) && Run(disk, pace, actions).pace == pace
    decreases |actions|
  {
    if actions != [] {
      var s, a := Run(disk, pace, actions[..|actions| - 1]), actions[|actions| - 1];
      EveryRunIsBase(disk, pace, actions[..|actions| - 1]);
      StepKeepsPace(s, a);
      forall k
        ensures KeyBase(Step(s, a), k)
      {
        StepBase(s, a, k);
      }
    } else {
      forall k
        ensures KeyBase(Start(disk, pace), k)
      {
        StartBase(disk, pace, k);
      }
    }
  }

  // ------------------------------------------------------------------ within the grace period

  // The Create's directory: nobody else's business, and no meta.json before the rename.
  predicate MakingSane(s: State, m: Making) {
    var k := m.meta.key;
    && k in s.disk && k !in s.removing && (m.stage != MadeDir ==> s.disk[k].data)
    && s.disk[k].meta == (if m.stage == Renamed then Some(Parsed(m.meta)) else None)
    && (m.stage != Renamed ==> k in s.began && s.clock <= s.began[k] + s.pace.create)
  }

  predicate KeySane(s: State, k: Key) {
    && (k in s.index ==> k in s.disk && k !in s.removing && s.index[k].key == k)
    && (k in s.index && k in s.disk ==> s.disk[k].meta == Some(Parsed(s.index[k])))
    && (k in s.promised ==> k in s.index && s.index[k] == s.promised[k] && k in s.disk && s.disk[k].data)
    && (IsMaking(s, k) ==> MakingSane(s, s.making.value))
  }

  // A directory that is, or is becoming, an indexed volume.
  predicate Wanted(s: State, k: Key) {
    k in s.index || IsMaking(s, k)
  }

  // A look at such a directory began before its rename, and saw a modification time from then on.
  predicate LookSane(s: State, w: nat) {
    w in s.walks && s.walks[w].look.Some? ==>
      (var l := s.walks[w].look.value;
       && l.key in s.seen && l.readAt <= s.clock <= l.readAt + s.pace.look
       && (Wanted(s, l.key) ==> l.key in s.began && l.readAt <= s.began[l.key] + s.pace.create
                                && (l.mtime.Some? ==> s.began[l.key] <= l.mtime.value)))
  }

  ghost predicate Sane(s: State) {
    && Base(s) && s.pace.create + s.pace.look < ORPHAN_GRACE
    && (forall k :: KeySane(s, k)) && (forall w :: LookSane(s, w))
  }

  lemma {:induction false} CreateStepSane(s: State, ok: bool, k: Key)
    requires Sane(s) && s.making.Some?
    ensures KeySane(CreateStep(s, s.making.value, ok), k)
  {
    assert KeyBase(s, k) && KeySane(s, k) && KeySane(s, s.making.value.meta.key) && KeyBase(s, s.making.value.meta.key);
  }

  lemma {:induction false} RemoveStepSane(s: State, key: Key, part: Part, k: Key)
    requires Sane(s) && key in s.disk && key in s.removing
    ensures KeySane(RemoveStep(s, key, part), k)
  {
    assert KeySane(s, k) && KeySane(s, key);
  }

  // The heart of it: the clock cannot have left a wanted directory that far behind.
  lemma {:induction false} DecideSpares(s: State, w: nat)
    requires Sane(s) && w in s.walks && s.walks[w].look.Some? && s.walks[w].look.value.mtime.Some?
    requires Wanted(s, s.walks[w].look.value.key)
    ensures s.clock - s.walks[w].look.value.mtime.value < ORPHAN_GRACE
  {
    assert LookSane(s, w);
  }

  lemma {:induction false} WalkStepSane(s: State, a: Action, k: Key)
    requires Sane(s)
    ensures KeySane(WalkStep(s, a), k)
  {
    assert KeySane(s, k);
    if a.Decide? && a.w in s.walks && s.walks[a.w].look.Some? && s.walks[a.w].look.value.mtime.Some?
       && Wanted(s, s.walks[a.w].look.value.key) {
      DecideSpares(s, a.w);
    }
  }

  lemma {:induction false} StepSane(s: State, a: Action, k: Key)
    requires Sane(s)
    ensures KeySane(Step(s, a), k)
  {
    assert KeySane(s, k) && KeyBase(s, k);
    if a.Go? && s.making.Some? {
      CreateStepSane(s, a.ok, k);
    } else if a.Remove? && a.key in s.removing && a.key in s.disk {
      RemoveStepSane(s, a.key, a.part, k);
    } else if a.Snapshot? || a.ReadMeta? || a.Stat? || a.Decide? {
      WalkStepSane(s, a, k);
    }
  }

  lemma {:induction false} WalkStepLooks(s: State, a: Action, w: nat)
    requires Sane(s)
    ensures LookSane(WalkStep(s, a), w)
  {
    assert LookSane(s, w);
    if a.ReadMeta? {
      assert KeyBase(s, a.key) && KeySane(s, a.key);
    } else if a.Stat? && a.w in s.walks && s.walks[a.w].look.Some? {
      assert LookSane(s, a.w) && KeyBase(s, s.walks[a.w].look.value.key);
    }
  }

  // Steps outside the walk: its looks stay, and no directory looked at becomes wanted anew.
  lemma {:induction false} CreateStepLooks(s: State, ok: bool, w: nat)
    requires Sane(s) && s.making.Some?
    ensures LookSane(CreateStep(s, s.making.value, ok), w)
  {
    assert LookSane(s, w);
  }

  lemma {:induction false} RemoveStepLooks(s: State, key: Key, part: Part, w: nat)
    requires Sane(s) && key in s.disk
    ensures LookSane(RemoveStep(s, key, part), w)
  {
    assert LookSane(s, w);
  }

  lemma {:induction false} IndexStepLooks(s: State, key: Key, name: string, w: nat)
    requires Sane(s)
    ensures key !in s.seen && s.making.None? ==> LookSane(BeginStep(s, key, name), w)
    ensures LookSane(DeleteStep(s, key), w) && LookSane(VanishStep(s, key), w)
  {
    assert LookSane(s, w);
  }

  lemma {:induction false} StepLooks(s: State, a: Action, w: nat)
    requires Sane(s)
    ensures LookSane(Step(s, a), w)
  {
    assert LookSane(s, w);
    match a {
      case Tick(_) =>
      case Create(key, name) => IndexStepLooks(s, key, name, w);
      case Go(ok) =>
        if s.making.Some? {
          CreateStepLooks(s, ok, w);
        }
      case Delete(key) => IndexStepLooks(s, key, "", w);
      case Remove(key, part) =>
        if key in s.disk {
          RemoveStepLooks(s, key, part, w);
        }
      case DropVanished(key) => IndexStepLooks(s, key, "", w);
      case Restart =>
      case _ => WalkStepLooks(s, a, w);
    }
  }

  /** If the longest Create and the longest look together fit in the grace period, then in every
      run the index, the Create in progress and every completed Create are untouched by SweepOrphans. */
  lemma {:induction false} EveryRunIsSane(disk: map<Key, Dir>, pace: Pace, actions: seq<Action>)
    requires pace.create + pace.look < ORPHAN_GRACE
    ensures Sane(Run(disk, pace, actions))
    decreases |actions|
  {
    EveryRunIsBase(disk, pace, actions);
    if actions != [] {
      var s, a := Run(disk, pace, actions[..|actions| - 1]), actions[|actions| - 1];
      EveryRunIsSane(disk, pace, actions[..|actions| - 1]);
      forall k
        ensures KeySane(Step(s, a), k)
      {
        StepSane(s, a, k);
      }
      forall w
        ensures LookSane(Step(s, a), w)
      {
        StepLooks(s, a, w);
      }
    }
  }

  /** No indexed volume and no Create in progress is ever under removal, and an indexed volume is
      on disk with its own metadata. */
  lemma {:induction false} IndexedIsOnDisk(disk: map<Key, Dir>, pace: Pace, actions: seq<Action>, k: Key)
    requires pace.create + pace.look < ORPHAN_GRACE
    ensures var s := Run(disk, pace, actions);
            && (k in s.removing ==> !Wanted(s, k))
            && (k in s.index ==> k in s.disk && IsVolume(k, s.disk[k]) && s.disk[k].meta.value.meta == s.index[k])
  {
    EveryRunIsSane(disk, pace, actions);
    assert KeySane(Run(disk, pace, actions), k);
  }

  /** A Create that returned, and was not deleted, survives a crash at any point of any run. */
  lemma {:induction false} CompletedCreatesSurvive(disk: map<Key, Dir>, pace: Pace, actions: seq<Action>, k: Key)
    requires pace.create + pace.look < ORPHAN_GRACE
    requires k in Run(disk, pace, actions).promised
    ensures var s := Run(disk, pace, actions); var r := Step(s, Restart);
            && k in s.index && k in r.index && r.index[k] == s.promised[k]
            && k in r.disk && r.disk[k] == s.disk[k] && r.disk[k].data
  {
    EveryRunIsSane(disk, pace, actions);
    assert KeySane(Run(disk, pace, actions), k);
  }

  /** After a crash at any step of a Create the scan either indexes the volume with its metadata or
      leaves no trace of it; which of the two is decided by the rename, if SweepOrphans keeps off. */
  lemma {:induction false} CreateIsCrashAtomic(disk: map<Key, Dir>, pace: Pace, actions: seq<Action>)
    requires Run(disk, pace, actions).making.Some?
    ensures var s := Run(disk, pace, actions); var m := s.making.value; var k := m.meta.key; var r := Step(s, Restart);
            && (k in r.index <==> k in r.disk) && (k in r.index ==> r.index[k] == m.meta)
            && (pace.create + pace.look < ORPHAN_GRACE ==> (k in r.index <==> m.stage == Renamed))
  {
    var s := Run(disk, pace, actions);
    EveryRunIsBase(disk, pace, actions);
    assert KeyBase(s, s.making.value.meta.key);
    if pace.create + pace.look < ORPHAN_GRACE {
      EveryRunIsSane(disk, pace, actions);
      assert KeySane(s, s.making.value.meta.key);
    }
  }

  /** After a restart the index and the disk name the same volumes, each with the metadata it was
      created with, and restarting again changes nothing. */
  lemma {:induction false} RestartAgreesWithDisk(disk: map<Key, Dir>, pace: Pace, actions: seq<Action>)
    ensures var s := Run(disk, pace, actions); var r := Step(s, Restart);
            && r.index.Keys == r.disk.Keys
            && (forall k :: k in r.index ==> k in s.born && r.index[k] == s.born[k])
            && Step(r, Restart) == r
  {
    var s := Run(disk, pace, actions);
    var r := Step(s, Restart);
    EveryRunIsBase(disk, pace, actions);
    forall k | k in r.index
      ensures k in s.born && r.index[k] == s.born[k]
    {
      assert KeyBase(s, k);
    }
    assert ScanDisk(r.disk) == r.disk && ScanIndex(r.disk) == r.index;
  }

  /** Delete is not crash-atomic: a directory whose removal was interrupted comes back as a volume
      exactly when its meta.json had not been removed yet, whatever is left of its data. */
  lemma {:induction false} InterruptedDeleteReturnsIff(disk: map<Key, Dir>, pace: Pace, actions: seq<Action>, k: Key)
    requires var s := Run(disk, pace, actions); k in s.removing && k in s.born
    ensures var s := Run(disk, pace, actions); k in s.disk && (k in Step(s, Restart).index <==> s.disk[k].meta.Some?)
  {
    EveryRunIsBase(disk, pace, actions);
    assert KeyBase(Run(disk, pace, actions), k);
  }

  // ------------------------------------------------------------------ the grace period is exact

  ghost predicate Protected(s: State) {
    forall k :: k in s.removing ==> !Wanted(s, k)
  }

  /** SweepOrphans never removes an indexed volume or a Create in progress if and only if the
      longest Create and the longest look together stay below the grace period. */
  lemma {:induction false} GraceIsExact(pace: Pace)
    ensures (forall disk, actions :: Protected(Run(disk, pace, actions)))
            <==> pace.create + pace.look < ORPHAN_GRACE
  {
    if pace.create + pace.look < ORPHAN_GRACE {
      forall disk, actions
        ensures Protected(Run(disk, pace, actions))
      {
        forall k | k in Run(disk, pace, actions).removing
          ensures !Wanted(Run(disk, pace, actions), k)
        {
          IndexedIsOnDisk(disk, pace, actions, k);
        }
      }
    } else {
      SlowLookRemoves(pace);
    }
  }

  const MEMORY := Meta(0, "memory")

  // A world with the one volume 0, made at clock 0, and one walk begun before it.
  function Scene(pace: Pace, clock: nat, d: Dir, stage: Option<Stage>, look: Option<Look>): State {
    var index := if stage.None? then map[0 := MEMORY] else map[];
    State(pace, clock, map[0 := d], index, if stage.None? then None else Some(Making(MEMORY, stage.value)),
          map[0 := Walk({}, look)], {}, {0}, map[0 := MEMORY], map[0 := 0], index)
  }

  ghost predicate Reachable(s: State) {
    exists disk, actions :: Run(disk, s.pace, actions) == s
  }

  lemma {:induction false} Reaches(s: State, a: Action)
    requires Reachable(s)
    ensures Reachable(Step(s, a))
  {
    var disk, actions :| Run(disk, s.pace, actions) == s;
    assert (actions + [a])[..|actions|] == actions;
    StepKeepsPace(s, a);
    assert Run(disk, s.pace, actions + [a]) == Step(s, a);
  }

  lemma {:induction false} SceneBegins(pace: Pace)
    ensures Reachable(Scene(pace, 0, Dir(false, false, None, 0), Some(MadeDir), None))
  {
    var s := Start(map[], pace);
    assert Run(map[], pace, []) == s;
    assert s == State(pace, 0, map[], map[], None, map[], {}, {}, map[], map[], map[]);
    Reaches(s, Snapshot(0));
    var t := s.(walks := map[0 := Walk({}, None)]);
    assert Step(s, Snapshot(0)) == t;
    Reaches(t, Create(0, "memory"));
    assert Step(t, Create(0, "memory")) == Scene(pace, 0, Dir(false, false, None, 0), Some(MadeDir), None);
  }

  lemma {:induction false} SceneGoes(pace: Pace, clock: nat, d: Dir, stage: Stage, look: Option<Look>)
    ensures Step(Scene(pace, clock, d, Some(stage), look), Go(true))
            == if stage == Renamed then Scene(pace, clock, d, None, look)
               else Scene(pace, clock, Advanced(d, Making(MEMORY, stage), clock), Some(NextStage(stage)), look)
  {
  }

  lemma {:induction false} SceneTicks(pace: Pace, clock: nat, d: Dir, stage: Option<Stage>, look: Option<Look>,
      now: nat)
    requires clock <= now && (stage.Some? ==> now <= pace.create)
    requires look.Some? ==> now <= look.value.readAt + pace.look
    ensures Step(Scene(pace, clock, d, stage, look), Tick(now)) == Scene(pace, now, d, stage, look)
  {
  }

  lemma {:induction false} SceneLooks(pace: Pace, clock: nat, d: Dir, stage: Stage)
    requires d.meta.None?
    ensures Step(Step(Scene(pace, clock, d, Some(stage), None), ReadMeta(0, 0)), Stat(0))
            == Scene(pace, clock, d, Some(stage), Some(Look(0, clock, Some(d.mtime))))
  {
    var s := Step(Scene(pace, clock, d, Some(stage), None), ReadMeta(0, 0));
    assert s == Scene(pace, clock, d, Some(stage), Some(Look(0, clock, None)));
  }

  // The walk reads the metadata just before the rename and reaches its decision just in time.
  lemma {:induction false} SlowLookRemoves(pace: Pace)
    requires pace.create + pace.look >= ORPHAN_GRACE
    ensures exists disk, actions :: !Protected(Run(disk, pace, actions))
  {
    var look := Some(Look(0, pace.create, Some(0)));
    SceneLookedAt(pace);
    SceneFinishes(pace, pace.create, Dir(true, false, None, 0), look);
    var d := Dir(true, false, Some(Parsed(MEMORY)), pace.create);
    Reaches(Scene(pace, pace.create, d, None, look), Tick(pace.create + pace.look));
    SceneTicks(pace, pace.create, d, None, look, pace.create + pace.look);
    SceneEnds(pace, pace.create + pace.look, d, Look(0, pace.create, Some(0)));
  }

  lemma {:induction false} SceneLookedAt(pace: Pace)
    ensures var look := Look(0, pace.create, Some(0));
            Reachable(Scene(pace, pace.create, Dir(true, false, None, 0), Some(MadeData), Some(look)))
  {
    var empty, bare := Dir(false, false, None, 0), Dir(true, false, None, 0);
    SceneBegins(pace);
    Reaches(Scene(pace, 0, empty, Some(MadeDir), None), Go(true));
    SceneGoes(pace, 0, empty, MadeDir, None);
    Reaches(Scene(pace, 0, bare, Some(MadeData), None), Tick(pace.create));
    SceneTicks(pace, 0, bare, Some(MadeData), None, pace.create);
    var s := Scene(pace, pace.create, bare, Some(MadeData), None);
    Reaches(s, ReadMeta(0, 0));
    Reaches(Step(s, ReadMeta(0, 0)), Stat(0));
    SceneLooks(pace, pace.create, bare, MadeData);
  }

  lemma {:induction false} SceneEnds(pace: Pace, clock: nat, d: Dir, look: Look)
    requires Reachable(Scene(pace, clock, d, None, Some(look)))
    requires look.key == 0 && look.mtime.Some? && clock - look.mtime.value >= ORPHAN_GRACE
    ensures exists disk, actions :: !Protected(Run(disk, pace, actions))
  {
    var last := Scene(pace, clock, d, None, Some(look));
    Reaches(last, Decide(0));
    var s := DecideStep(last, 0, Walk({}, Some(look)), look);
    assert Step(last, Decide(0)) == s;
    assert 0 in s.removing && Wanted(s, 0);
    var disk, actions :| Run(disk, pace, actions) == s;
    assert !Protected(Run(disk, pace, actions));
  }

  lemma {:induction false} SceneFinishes(pace: Pace, clock: nat, d: Dir, look: Option<Look>)
    requires Reachable(Scene(pace, clock, d, Some(MadeData), look)) && !d.tmp
    ensures Reachable(Scene(pace, clock, d.(meta := Some(Parsed(MEMORY)), mtime := clock), None, look))
  {
    var e := d.(tmp := true, mtime := clock);
    var f := d.(meta := Some(Parsed(MEMORY)), mtime := clock);
    SceneGoes(pace, clock, d, MadeData, look);
    Reaches(Scene(pace, clock, d, Some(MadeData), look), Go(true));
    SceneGoes(pace, clock, d, Opened, look);
    Reaches(Scene(pace, clock, d, Some(Opened), look), Go(true));
    SceneGoes(pace, clock, e, WroteTmp, look);
    Reaches(Scene(pace, clock, e, Some(WroteTmp), look), Go(true));
    SceneGoes(pace, clock, f, Renamed, look);
    Reaches(Scene(pace, clock, f, Some(Renamed), look), Go(true));
  }

  // ------------------------------------------------------------------ a deleted volume that returns

  // Volume 0 made at clock 0 and indexed.
  lemma {:induction false} SceneIndexed(pace: Pace)
    ensures Reachable(Scene(pace, 0, Dir(true, false, Some(Parsed(MEMORY)), 0), None, None))
  {
    var empty := Dir(false, false, None, 0);
    SceneBegins(pace);
    Reaches(Scene(pace, 0, empty, Some(MadeDir), None), Go(true));
    SceneGoes(pace, 0, empty, MadeDir, None);
    SceneFinishes(pace, 0, Dir(true, false, None, 0), None);
  }

  // Deleted, and the crash comes when RemoveAll has taken the data but not yet meta.json.
  function HalfRemoved(pace: Pace): State {
    Scene(pace, 0, Dir(false, false, Some(Parsed(MEMORY)), 0), None, None)
      .(index := map[], promised := map[], removing := {0})
  }

  lemma {:induction false} ReachesHalfRemoved(pace: Pace)
    ensures Reachable(HalfRemoved(pace))
  {
    var s := Scene(pace, 0, Dir(true, false, Some(Parsed(MEMORY)), 0), None, None);
    SceneIndexed(pace);
    Reaches(s, Delete(0));
    var t := s.(index := map[], promised := map[], removing := {0});
    assert Step(s, Delete(0)) == t;
    Reaches(t, Remove(0, DataDir));
    assert Step(t, Remove(0, DataDir)) == HalfRemoved(pace);
  }

  /** At any pace some run has a deleted volume, its data gone, back in the index after a restart. */
  lemma {:induction false} DeletedVolumeReturns(pace: Pace)
    ensures exists disk, actions :: var s := Run(disk, pace, actions);
              0 in s.born && 0 !in s.promised && 0 !in s.index && 0 in Restarted(s).index && !Restarted(s).disk[0].data
  {
    ReachesHalfRemoved(pace);
    var disk, actions :| Run(disk, pace, actions) == HalfRemoved(pace);
  }

  // ------------------------------------------------------------------ the operations do their job

  // One look at a directory, with nothing in between.
  function LookAt(s: State, w: nat, k: Key): State {
    Step(Step(Step(Step(s, Snapshot(w)), ReadMeta(w, k)), Stat(w)), Decide(w))
  }

  /** A directory that is not in the index and has no valid metadata comes under removal exactly if it
      has been quiet for the grace period. */
  lemma {:induction false} OrphanGoesIff(s: State, w: nat, k: Key)
    requires s.making.None? && k in s.disk && k !in s.index && !IsVolume(k, s.disk[k])
    ensures k in LookAt(s, w, k).removing <==> k in s.removing || s.clock - s.disk[k].mtime >= 60_000_000_000
  {
    var s1 := Step(s, Snapshot(w));
    assert s1 == s.(walks := s.walks[w := Walk(s.index.Keys, None)]);
    var s2 := Step(s1, ReadMeta(w, k));
    assert s2.walks[w] == Walk(s.index.Keys, Some(Look(k, s.clock, None))) && s2.disk == s.disk && s2.clock == s.clock;
    var s3 := Step(s2, Stat(w));
    assert s3.walks[w] == Walk(s.index.Keys, Some(Look(k, s.clock, Some(s.disk[k].mtime))));
    assert s3.disk == s.disk && s3.clock == s.clock && s3.removing == s.removing;
  }

  function RemovedAll(s: State, k: Key): State {
    Step(Step(Step(Step(s, Remove(k, DataDir)), Remove(k, TmpFile)), Remove(k, MetaJson)), Remove(k, WholeDir))
  }

  /** A removal that is not interrupted leaves nothing of the directory. */
  lemma {:induction false} RemovalCompletes(s: State, k: Key)
    requires k in s.removing && k in s.disk
    ensures var t := RemovedAll(s, k); t.disk == s.disk - {k} && k !in t.removing && t.index == s.index
  {
    var s1 := Step(s, Remove(k, DataDir));
    assert s1.disk == s.disk[k := s.disk[k].(data := false, mtime := s.clock)];
    var s2 := Step(s1, Remove(k, TmpFile));
    assert s2.disk == s.disk[k := s.disk[k].(data := false, tmp := false, mtime := s.clock)];
    var s3 := Step(s2, Remove(k, MetaJson));
    assert s3.disk == s.disk[k := Dir(false, false, None, s.clock)] && s3.removing == s.removing;
    assert s3.disk - {k} == s.disk - {k};
  }

  /** SweepOrphans takes exactly the volumes without a data directory out of the index. */
  lemma {:induction false} VanishedLeavesIndex(s: State, k: Key)
    requires s.making.None? && k in s.index
    ensures k in Step(s, DropVanished(k)).index <==> k in s.disk && s.disk[k].data
    ensures Step(s, DropVanished(k)).index - {k} == s.index - {k}
  {
  }

  /** Delete takes the volume out of the index and puts its directory under removal. */
  lemma {:induction false} DeleteBegins(s: State, k: Key)
    requires s.making.None? && k in s.index && k in s.disk
    ensures var t := Step(s, Delete(k)); t.index == s.index - {k} && k in t.removing && k !in t.promised
  {
  }

  function GoTwice(s: State): State {
    Step(Step(s, Go(true)), Go(true))
  }

  /** A Create in which nothing fails ends with the volume indexed, with its metadata and its data
      directory on disk. */
  lemma {:induction false} CreateCompletes(s: State, key: Key, name: string)
    requires s.making.None? && key !in s.seen
    ensures var t := Step(GoTwice(GoTwice(Step(s, Create(key, name)))), Go(true));
            && t.making.None? && t.index == s.index[key := Meta(key, name)]
            && key in t.promised && key in t.disk && t.disk[key].data && !t.disk[key].tmp
            && t.disk[key].meta == Some(Parsed(Meta(key, name)))
  {
    var meta := Meta(key, name);
    var s0 := Step(s, Create(key, name));
    assert s0 == BeginStep(s, key, name);
    var s1 := Step(s0, Go(true));
    assert s1.making == Some(Making(meta, MadeData)) && s1.disk[key] == Dir(true, false, None, s.clock);
    var s2 := Step(s1, Go(true));
    assert s2.making == Some(Making(meta, Opened)) && s2.disk[key] == Dir(true, false, None, s.clock);
    var s3 := Step(s2, Go(true));
    assert s3.making == Some(Making(meta, WroteTmp)) && s3.disk[key] == Dir(true, true, None, s.clock);
    var s4 := Step(s3, Go(true));
    assert s4.making == Some(Making(meta, Renamed)) && s4.disk[key] == Dir(true, false, Some(Parsed(meta)), s.clock);
    assert s4.index == s.index;
  }

  /** A Create that fails gives the lock back, and from the data directory on cleans up after itself. */
  lemma {:induction false} FailureCleansUp(s: State)
    requires Unfinished(s)
    ensures var k, t := s.making.value.meta.key, Step(s, Go(false));
            && t.making.None? && t.index == s.index && t.disk == s.disk
            && (s.making.value.stage != MadeDir && k in s.disk ==> k in t.removing)
  {
  }

  /** What moves a volume's own modification time: each entry that Create adds or renames, and nothing
      about the permissions of its data directory. */
  lemma {:induction false} CreateStamps(s: State)
    requires Unfinished(s) && s.making.value.meta.key in s.disk
    ensures var k := s.making.value.meta.key;
            Step(s, Go(true)).disk[k].mtime == if s.making.value.stage == MadeData then s.disk[k].mtime else s.clock
  {
  }

  /** The walk passes by a volume of its snapshot, and a directory with valid metadata. */
  lemma {:induction false} KnownIsSpared(s: State, w: nat, k: Key)
    requires w in s.walks && k in s.disk && (k in s.walks[w].known || IsVolume(k, s.disk[k]))
    ensures Step(s, ReadMeta(w, k)) == s
  {
  }
}
