/** The lifecycle results, for every interleaving of every run. */
module LifecycleRuns {
  import opened Options
  import opened Lifecycle
  import opened LifecycleIds
  import opened LifecycleSlots
  import opened LifecycleHolds
  import opened LifecycleEngine
  import Sums

  ghost predicate Good(s: State) {
    Ids(s) && Slots(s) && Holds(s) && Engine(s)
  }

  lemma StartGood(max: nat)
    ensures Good(Start(max))
  {
    var s := Start(max);
    Sums.TallyEmpty(s.ids, EntrySlots);
    Sums.TallyEmpty(s.ids, EntryInUse);
    Sums.TallyEmpty(s.drops, DropSlots);
    Sums.TallyEmpty(s.drops, DropInUse);
  }

  lemma {:induction false} StepGood(s: State, a: Action)
    requires Good(s)
    ensures Good(Step(s, a))
  {
    StepIds(s, a);
    StepSlots(s, a);
    StepHolds(s, a);
    StepEngine(s, a);
  }

  lemma {:induction false} EveryRunIsGood(max: nat, actions: seq<Action>)
    ensures Good(Run(max, actions))
    decreases |actions|
  {
    if actions == [] {
      StartGood(max);
    } else {
      var s, a := Run(max, actions[..|actions| - 1]), actions[|actions| - 1];
      EveryRunIsGood(max, actions[..|actions| - 1]);
      StepGood(s, a);
    }
  }

  // No create and no drop is in flight.
  ghost predicate AtRest(s: State) {
    s.drops == map[] && forall i :: i in s.ids ==> s.ids[i].fs.None? && s.ids[i].create.None?
  }

  /** In every reachable state slots are conserved and the semaphore cannot panic. */
  lemma {:induction false} SlotSafety(max: nat, actions: seq<Action>)
    ensures var s := Run(max, actions);
            && s.held == |KernelSessions(s)| + |CreatesHolding(s)| + |DropsHolding(s)|
            && 0 <= s.held <= s.max && s.inUse >= 0
            && (forall t :: t in s.drops && s.drops[t].DropFreeing? ==> s.held >= 1)
            && (forall i :: i in s.ids && s.ids[i].create.Some? && s.ids[i].create.value.KGiveBack? ==> s.held >= 1)
  {
    EveryRunIsGood(max, actions);
    SlotsAreConserved(Run(max, actions));
    ReleaseNeverPanics(Run(max, actions));
  }

  /** At rest the semaphore, its metric and the kernel sessions agree. */
  lemma {:induction false} SlotsAtRest(max: nat, actions: seq<Action>)
    requires AtRest(Run(max, actions))
    ensures var s := Run(max, actions); s.held == s.inUse == |KernelSessions(s)|
  {
    var s := Run(max, actions);
    EveryRunIsGood(max, actions);
    SlotsAreConserved(s);
    assert CreatesHolding(s) == {} && DropsHolding(s) == {};
    Sums.TallyCounts(s.ids, EntryInUse);
    assert Sums.Ones(s.ids, EntryInUse) == KernelSessions(s);
    Sums.TallyEmpty(s.drops, DropInUse);
  }

  /** No two sessions in the map ever have the same volume mounted read-write. */
  lemma {:induction false} MountsAreExclusive(max: nat, actions: seq<Action>, i: Sid, j: Sid, v: Vid)
    requires var s := Run(max, actions);
             && Listed(s, i) && s.ids[i].session.value.mount == Some(v)
             && Listed(s, j) && s.ids[j].session.value.mount == Some(v)
    ensures i == j
  {
    EveryRunIsGood(max, actions);
    assert ReliesSane(Run(max, actions), i, v) && ReliesSane(Run(max, actions), j, v);
  }

  /** A hold on an indexed volume always has someone who will keep it in use or release it. */
  lemma {:induction false} HoldsAreAccountedFor(max: nat, actions: seq<Action>, v: Vid)
    requires var s := Run(max, actions); v in s.indexed && v in s.holder && s.holder[v].Some?
    ensures var s := Run(max, actions);
            s.holder[v].value in s.ids && (Accounts(s.ids[s.holder[v].value], v) || BeingDropped(s, s.holder[v].value))
  {
    EveryRunIsGood(max, actions);
    assert HoldSane(Run(max, actions), v);
  }

  /** At rest a session holds an indexed volume exactly when it has it mounted: nothing leaked. */
  lemma {:induction false} HoldsAtRest(max: nat, actions: seq<Action>, i: Sid, v: Vid)
    requires AtRest(Run(max, actions)) && v in Run(max, actions).indexed
    ensures var s := Run(max, actions);
            v in s.holder && (s.holder[v] == Some(i) <==> Listed(s, i) && s.ids[i].session.value.mount == Some(v))
  {
    EveryRunIsGood(max, actions);
    assert HoldSane(Run(max, actions), v) && ReliesSane(Run(max, actions), i, v);
  }

  /** At rest every resident kernel is a kernel session; a kernel session lacks its kernel exactly
      when SweepKernels looked it up, and found nothing, before its create had inserted it. */
  lemma {:induction false} KernelsAtRest(max: nat, actions: seq<Action>, i: Sid)
    requires AtRest(Run(max, actions)) && i in Run(max, actions).ids
    ensures var e := Run(max, actions).ids[i];
            && (e.resident ==> KernelListed(e))
            && (KernelListed(e) ==> (!e.resident <==> e.early))
  {
    EveryRunIsGood(max, actions);
    assert EngineSane(Run(max, actions), i) && IdSane(Run(max, actions), i);
  }

  /** Volumes come unheld; the lock is granted unless another session holds it; a held volume is not
      deleted, an unheld one is; one that is lost goes either way, and its hold stays on the object. */
  lemma {:induction false} VolumesComeAndGo(s: State, v: Vid, i: Sid)
    ensures v !in s.holder ==>
              (var t := Step(s, NewVolume(v)); v in t.indexed && v in t.holder && t.holder[v] == None)
    ensures v in s.holder ==> (Grantable(s, v, i) <==> !(s.holder[v].Some? && s.holder[v].value != i))
    ensures v in s.holder && v in s.indexed ==> (v in Step(s, DeleteVolume(v)).indexed <==> s.holder[v].Some?)
    ensures v !in Step(s, LoseVolume(v)).indexed && Step(s, LoseVolume(v)).holder == s.holder
  {
  }

  lemma OneMore(max: nat, actions: seq<Action>, a: Action)
    ensures Run(max, actions + [a]) == Step(Run(max, actions), a)
  {
    assert (actions + [a])[..|actions|] == actions;
  }
}
