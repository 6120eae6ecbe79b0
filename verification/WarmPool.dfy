/**
 The warm container pool: requests that lease and retire, replenishers, priming and Close, each
 lock-protected section or docker command one step, in any interleaving.
 */
module WarmPool {
  import Sums

  type Name = nat  // container names; minted fresh by boot

  datatype Place =
    | Primed     // booted by Prime, about to be appended
    | Booted     // booted by a replenisher, about to take the lock
    | Ready      // in the ready list
    | Leased     // serving its one job
    | Doomed     // taken by Close, or booted too late: removal about to be issued
    | Removed    // docker rm -f issued

  // leases and late are history: how often it was leased, and whether Prime appended it after the
  // last Close.
  datatype Container = Container(place: Place, leases: nat, late: bool)

  datatype State = State(
    size: nat,
    boxes: map<Name, Container>,   // every container ever booted
    ready: seq<Name>,
    closed: bool,
    priming: nat,                  // containers Prime has still to boot
    retiring: nat,                 // requests between their docker rm and the closed check
    booting: nat,                  // replenishers started and not yet through boot
    hasty: bool)                   // history: Close was called before Prime had finished

  datatype Action =
    | PrimeBoot(name: Name, ok: bool)
    | PrimeAppend(name: Name)
    | Take
    | Retire(name: Name)           // the job is over, successful or not: docker rm
    | CheckClosed
    | Boot(name: Name, ok: bool)
    | Append(name: Name)
    | Remove(name: Name)
    | Close

  // Prime boots up to size containers; a size of zero disables the pool.
  function Start(size: nat): State {
    State(size, map[], [], false, size, 0, 0, false)
  }

  predicate At(s: State, name: Name, p: Place) {
    name in s.boxes && s.boxes[name].place == p
  }

  function Move(s: State, name: Name, p: Place): map<Name, Container>
    requires name in s.boxes
  {
    s.boxes[name := s.boxes[name].(place := p)]
  }

  function Step(s: State, a: Action): State {
    match a
    case PrimeBoot(name, ok) =>
      if s.priming == 0 || name in s.boxes then s
      else if ok then s.(priming := s.priming - 1, boxes := s.boxes[name := Container(Primed, 0, false)])
      else s.(priming := s.priming - 1)
    case PrimeAppend(name) =>
      if !At(s, name, Primed) then s
      else s.(ready := s.ready + [name], boxes := s.boxes[name := s.boxes[name].(place := Ready, late := s.closed)])
    case Take =>
      if s.closed || s.ready == [] || s.ready[|s.ready| - 1] !in s.boxes then s
      else
        var name := s.ready[|s.ready| - 1];
        s.(ready := s.ready[..|s.ready| - 1],
           boxes := s.boxes[name := s.boxes[name].(place := Leased, leases := s.boxes[name].leases + 1)])
    case Retire(name) =>
      if !At(s, name, Leased) then s else s.(boxes := Move(s, name, Removed), retiring := s.retiring + 1)
    case CheckClosed =>
      if s.retiring == 0 then s
      else s.(retiring := s.retiring - 1, booting := if s.closed then s.booting else s.booting + 1)
    case Boot(name, ok) =>
      if s.booting == 0 || name in s.boxes then s
      else if ok then s.(booting := s.booting - 1, boxes := s.boxes[name := Container(Booted, 0, false)])
      else s.(booting := s.booting - 1)
    case Append(name) =>
      if !At(s, name, Booted) then s
      else if s.closed then s.(boxes := Move(s, name, Doomed))
      else s.(boxes := Move(s, name, Ready), ready := s.ready + [name])
    case Remove(name) =>
      if At(s, name, Doomed) then s.(boxes := Move(s, name, Removed)) else s
    case Close =>
      s.(closed := true, ready := [], hasty := s.hasty || Priming(s),
         boxes := Doom(s.boxes, s.ready))
  }

  function Doom(boxes: map<Name, Container>, ready: seq<Name>): map<Name, Container> {
    map n | n in boxes :: if n in ready then boxes[n].(place := Doomed, late := false) else boxes[n]
  }

  predicate Priming(s: State) {
    s.priming > 0 || exists n :: n in s.boxes && s.boxes[n].place == Primed
  }

  function Run(size: nat, actions: seq<Action>): State {
    if actions == [] then Start(size) else Step(Run(size, actions[..|actions| - 1]), actions[|actions| - 1])
  }

  // ------------------------------------------------------------------ single use

  // A container is leased only out of the ready list, and leaves it for good.
  predicate BoxSane(s: State, n: Name) {
    && (At(s, n, Ready) <==> n in s.ready)
    && (n in s.boxes ==> s.boxes[n].leases <= (if s.boxes[n].place in {Leased, Removed} then 1 else 0))
    && (n in s.boxes ==> (s.boxes[n].late <==> s.closed && s.boxes[n].place == Ready))
    && (n in s.boxes && s.boxes[n].late ==> s.hasty)
    && (At(s, n, Primed) && s.closed ==> s.hasty)
  }

  predicate Distinct(q: seq<Name>) {
    forall i, j :: 0 <= i < j < |q| ==> q[i] != q[j]
  }

  ghost predicate Sane(s: State) {
    && Distinct(s.ready) && (s.closed && s.priming > 0 ==> s.hasty)
    && forall n :: BoxSane(s, n)
  }

  // The ready list gains a container that was booted for it.
  lemma {:induction false} AppendBox(s: State, a: Action, n: Name)
    requires Sane(s) && (a.PrimeAppend? || a.Append?)
    ensures BoxSane(Step(s, a), n)
  {
    assert BoxSane(s, n) && BoxSane(s, a.name);
    assert n in s.ready + [a.name] <==> n in s.ready || n == a.name;
  }

  // It loses its last one to a lease.
  lemma {:induction false} TakeBox(s: State, n: Name)
    requires Sane(s)
    ensures BoxSane(Step(s, Take), n)
  {
    assert BoxSane(s, n);
    if s.ready != [] {
      var last := s.ready[|s.ready| - 1];
      assert BoxSane(s, last);
      assert n in s.ready <==> n in s.ready[..|s.ready| - 1] || n == last;
      assert last !in s.ready[..|s.ready| - 1];
    }
  }

  // It stays as it is.
  lemma {:induction false} OtherBox(s: State, a: Action, n: Name)
    requires Sane(s) && (a.PrimeBoot? || a.Boot? || a.Retire? || a.Remove?)
    ensures BoxSane(Step(s, a), n)
  {
    assert BoxSane(s, n) && BoxSane(s, a.name);
  }

  lemma {:induction false} CloseBox(s: State, n: Name)
    requires Sane(s)
    ensures BoxSane(Step(s, Close), n)
  {
    assert BoxSane(s, n);
  }

  lemma {:induction false} BoxStep(s: State, a: Action, n: Name)
    requires Sane(s)
    ensures BoxSane(Step(s, a), n)
  {
    match a {
      case PrimeAppend(_) => AppendBox(s, a, n);
      case Append(_) => AppendBox(s, a, n);
      case Take => TakeBox(s, n);
      case Close => CloseBox(s, n);
      case CheckClosed => assert BoxSane(s, n);
      case _ => OtherBox(s, a, n);
    }
  }

  lemma {:induction false} ListStep(s: State, a: Action)
    requires Sane(s)
    ensures Distinct(Step(s, a).ready)
    ensures Step(s, a).closed && Step(s, a).priming > 0 ==> Step(s, a).hasty
  {
    if a.PrimeAppend? || a.Append? {
      assert BoxSane(s, a.name);
    }
  }

  lemma {:induction false} EveryRunIsSane(size: nat, actions: seq<Action>)
    ensures Sane(Run(size, actions))
    decreases |actions|
  {
    if actions != [] {
      var s, a := Run(size, actions[..|actions| - 1]), actions[|actions| - 1];
      EveryRunIsSane(size, actions[..|actions| - 1]);
      ListStep(s, a);
      forall n
        ensures BoxSane(Step(s, a), n)
      {
        BoxStep(s, a, n);
      }
    }
  }

  /** No container ever serves two jobs. */
  lemma {:induction false} SingleUse(size: nat, actions: seq<Action>, n: Name)
    requires n in Run(size, actions).boxes
    ensures Run(size, actions).boxes[n].leases <= 1
  {
    EveryRunIsSane(size, actions);
    assert BoxSane(Run(size, actions), n);
  }

  // ------------------------------------------------------------------ bounded size

  function Occupies(c: Container): nat {
    if c.place in {Primed, Booted, Ready, Leased} then 1 else 0
  }

  ghost predicate Bounded(s: State) {
    Sums.Tally(s.boxes, Occupies) + s.priming + s.retiring + s.booting <= s.size
  }

  lemma {:induction false} CloseFrees(boxes: map<Name, Container>, ready: seq<Name>)
    ensures Sums.Tally(Doom(boxes, ready), Occupies) <= Sums.Tally(boxes, Occupies)
    decreases |boxes|
  {
    if boxes == map[] {
      assert Doom(boxes, ready) == boxes;
    } else {
      var n :| n in boxes;
      CloseFrees(boxes - {n}, ready);
      DoomOne(boxes, ready, n);
    }
  }

  lemma {:induction false} DoomOne(boxes: map<Name, Container>, ready: seq<Name>, n: Name)
    requires n in boxes && Sums.Tally(Doom(boxes - {n}, ready), Occupies) <= Sums.Tally(boxes - {n}, Occupies)
    ensures Sums.Tally(Doom(boxes, ready), Occupies) <= Sums.Tally(boxes, Occupies)
  {
    var doomed: map<Name, Container> := Doom(boxes, ready);
    Sums.TallyRemove(boxes, Occupies, n);
    Sums.TallyRemove(doomed, Occupies, n);
    DoomWithout(boxes, ready, n);
    assert Occupies(doomed[n]) <= Occupies(boxes[n]);
  }

  lemma {:induction false} DoomWithout(boxes: map<Name, Container>, ready: seq<Name>, n: Name)
    ensures Doom(boxes, ready) - {n} == Doom(boxes - {n}, ready)
  {
  }

  // One container moves, or one is booted.
  lemma {:induction false} BoundedMove(s: State, a: Action)
    requires Bounded(s) && (a.PrimeBoot? || a.PrimeAppend? || a.Retire? || a.Boot? || a.Append? || a.Remove?)
    ensures Bounded(Step(s, a))
  {
    if a.name in Step(s, a).boxes {
      Sums.TallyUpdate(s.boxes, Occupies, a.name, Step(s, a).boxes[a.name]);
    }
  }

  lemma {:induction false} BoundedTake(s: State)
    requires Bounded(s) && Sane(s)
    ensures Bounded(Step(s, Take))
  {
    if Step(s, Take) != s {
      var last := s.ready[|s.ready| - 1];
      assert BoxSane(s, last);
      Sums.TallyUpdate(s.boxes, Occupies, last, Step(s, Take).boxes[last]);
    }
  }

  lemma {:induction false} BoundedStep(s: State, a: Action)
    requires Bounded(s) && Sane(s)
    ensures Bounded(Step(s, a)) && Step(s, a).size == s.size
  {
    match a {
      case Close => CloseFrees(s.boxes, s.ready);
      case Take => BoundedTake(s);
      case CheckClosed =>
      case _ => BoundedMove(s, a);
    }
  }

  lemma {:induction false} EveryRunIsBounded(size: nat, actions: seq<Action>)
    ensures Bounded(Run(size, actions)) && Run(size, actions).size == size
    decreases |actions|
  {
    if actions == [] {
      Sums.TallyEmpty(Start(size).boxes, Occupies);
    } else {
      var front := actions[..|actions| - 1];
      EveryRunIsBounded(size, front);
      EveryRunIsSane(size, front);
      BoundedStep(Run(size, front), actions[|actions| - 1]);
    }
  }

  /** Ready, leased and being replaced together never exceed the configured size. */
  lemma {:induction false} PoolIsBounded(size: nat, actions: seq<Action>)
    ensures var s := Run(size, actions);
            |s.ready| + |InPlace(s, Leased)| + |InPlace(s, Booted)| + s.booting + s.retiring <= size
  {
    var s := Run(size, actions);
    EveryRunIsSane(size, actions);
    EveryRunIsBounded(size, actions);
    OccupantsSplit(s);
  }

  function InPlace(s: State, p: Place): set<Name> {
    set n | n in s.boxes && s.boxes[n].place == p
  }

  lemma {:induction false} OccupantsSplit(s: State)
    requires Sane(s)
    ensures |s.ready| + |InPlace(s, Leased)| + |InPlace(s, Booted)| <= Sums.Tally(s.boxes, Occupies)
  {
    Sums.TallyCounts(s.boxes, Occupies);
    forall n | n in s.ready
      ensures n in InPlace(s, Ready)
    {
      assert BoxSane(s, n);
    }
    DistinctWithin(s.ready, InPlace(s, Ready));
    var a, b, c := InPlace(s, Ready), InPlace(s, Leased), InPlace(s, Booted);
    SmallerSet(a + b + c, Sums.Ones(s.boxes, Occupies));
    assert |a + b + c| == |a| + |b| + |c|;
  }

  lemma SmallerSet(a: set<Name>, b: set<Name>)
    requires a <= b
    ensures |a| <= |b|
  {
    assert b == a + (b - a);
  }

  lemma {:induction false} DistinctWithin(q: seq<Name>, s: set<Name>)
    requires Distinct(q) && forall n :: n in q ==> n in s
    ensures |q| <= |s|
    decreases |q|
  {
    if q != [] {
      var last := q[|q| - 1];
      assert last in s;
      forall n | n in q[..|q| - 1]
        ensures n in s - {last}
      {
      }
      DistinctWithin(q[..|q| - 1], s - {last});
    }
  }

  // ------------------------------------------------------------------ nothing outlives Close

  ghost predicate Quiet(s: State) {
    && s.priming == 0 && s.retiring == 0 && s.booting == 0
    && forall n :: n in s.boxes ==> s.boxes[n].place in {Ready, Removed}
  }

  /** Once Close and everything in flight are over, every container has had its removal issued,
      except exactly those that Prime appended after Close; there are none if priming had finished
      when Close was called. */
  lemma {:induction false} NothingOutlivesClose(size: nat, actions: seq<Action>, n: Name)
    requires var s := Run(size, actions); s.closed && Quiet(s) && n in s.boxes
    ensures var s := Run(size, actions);
            && (s.boxes[n].place != Removed <==> s.boxes[n].late)
            && (s.boxes[n].late ==> s.hasty)
  {
    EveryRunIsSane(size, actions);
    assert BoxSane(Run(size, actions), n);
  }

  // Close first, then one boot that succeeds and is appended, then boots that fail.
  function HastyRun(failed: nat): seq<Action> {
    if failed == 0 then [] + [Close] + [PrimeBoot(0, true)] + [PrimeAppend(0)]
    else HastyRun(failed - 1) + [PrimeBoot(1, false)]
  }

  lemma {:induction false} HastyBegins(size: nat)
    requires size >= 1
    ensures Run(size, HastyRun(0)) == State(size, map[0 := Container(Ready, 0, true)], [0], true, size - 1, 0, 0, true)
  {
    OneMore(size, [], Close);
    assert Run(size, [] + [Close]) == State(size, map[], [], true, size, 0, 0, true);
    OneMore(size, [] + [Close], PrimeBoot(0, true));
    assert Run(size, [] + [Close] + [PrimeBoot(0, true)])
        == State(size, map[0 := Container(Primed, 0, false)], [], true, size - 1, 0, 0, true);
    OneMore(size, [] + [Close] + [PrimeBoot(0, true)], PrimeAppend(0));
  }

  lemma {:induction false} HastyContinues(size: nat, failed: nat)
    requires failed < size
    ensures Run(size, HastyRun(failed))
            == State(size, map[0 := Container(Ready, 0, true)], [0], true, size - 1 - failed, 0, 0, true)
    decreases failed
  {
    if failed == 0 {
      HastyBegins(size);
    } else {
      HastyContinues(size, failed - 1);
      OneMore(size, HastyRun(failed - 1), PrimeBoot(1, false));
    }
  }

  /** Prime does not look at the closed flag: in a pool of any size, a Close that overtakes it can
      leave a container behind. */
  lemma {:induction false} HastyCloseLeaks(size: nat)
    requires size >= 1
    ensures var s := Run(size, HastyRun(size - 1)); s.closed && Quiet(s) && At(s, 0, Ready) && s.boxes[0].late
  {
    HastyContinues(size, size - 1);
  }

  lemma OneMore(size: nat, actions: seq<Action>, a: Action)
    ensures Run(size, actions + [a]) == Step(Run(size, actions), a)
  {
    assert (actions + [a])[..|actions|] == actions;
  }

  // ------------------------------------------------------------------ the pool does its job

  /** On an open pool a request gets a ready container, to itself, and nothing else changes. */
  lemma {:induction false} TakeLeases(size: nat, actions: seq<Action>)
    requires var s := Run(size, actions); !s.closed && s.ready != []
    ensures var s, t := Run(size, actions), Run(size, actions + [Take]);
            var last := s.ready[|s.ready| - 1];
            && t.ready == s.ready[..|s.ready| - 1] && last !in t.ready
            && last in s.boxes && s.boxes[last].leases == 0
            && t == s.(ready := t.ready, boxes := s.boxes[last := Container(Leased, 1, s.boxes[last].late)])
  {
    var s := Run(size, actions);
    EveryRunIsSane(size, actions);
    OneMore(size, actions, Take);
    assert BoxSane(s, s.ready[|s.ready| - 1]);
  }

  /** A lease that is over, on an open pool, starts one replenisher; on a closed pool none. */
  lemma {:induction false} RetireReplenishes(s: State, n: Name)
    requires At(s, n, Leased)
    ensures var t := Step(Step(s, Retire(n)), CheckClosed);
            At(t, n, Removed) && t.ready == s.ready && t.booting == if s.closed then s.booting else s.booting + 1
  {
  }

  /** A replenisher that boots a container adds it to an open pool, and dooms it on a closed one. */
  lemma {:induction false} ReplenishAdds(s: State, n: Name)
    requires s.booting > 0 && n !in s.boxes
    ensures var t := Step(Step(s, Boot(n, true)), Append(n));
            && t.booting == s.booting - 1
            && t.ready == (if s.closed then s.ready else s.ready + [n])
            && At(t, n, if s.closed then Doomed else Ready)
  {
  }

  /** Close dooms every ready container, and a doomed container is removed. */
  lemma {:induction false} CloseDooms(size: nat, actions: seq<Action>, n: Name)
    requires n in Run(size, actions).ready
    ensures var t := Run(size, actions + [Close]);
            t.closed && t.ready == [] && At(t, n, Doomed) && At(Step(t, Remove(n)), n, Removed)
  {
    EveryRunIsSane(size, actions);
    assert BoxSane(Run(size, actions), n);
    OneMore(size, actions, Close);
  }

  function PrimeRun(k: nat): seq<Action> {
    if k == 0 then [] else PrimeRun(k - 1) + [PrimeBoot(k - 1, true)] + [PrimeAppend(k - 1)]
  }

  lemma {:induction false} TwoMore(size: nat, actions: seq<Action>, a: Action, b: Action)
    ensures Run(size, actions + [a] + [b]) == Step(Step(Run(size, actions), a), b)
  {
    OneMore(size, actions, a);
    OneMore(size, actions + [a], b);
  }

  lemma {:induction false} PrimeOne(s: State, n: Name)
    requires s.priming > 0 && n !in s.boxes
    ensures var t := Step(Step(s, PrimeBoot(n, true)), PrimeAppend(n));
            && t.ready == s.ready + [n] && t.priming == s.priming - 1 && t.closed == s.closed
            && t.boxes.Keys == s.boxes.Keys + {n}
  {
  }

  // k containers booted and appended, the rest to come.
  ghost predicate PrimedWith(s: State, size: nat, k: nat) {
    |s.ready| == k && s.priming == size - k && !s.closed && forall n :: n in s.boxes.Keys ==> n < k
  }

  lemma {:induction false} PrimedMore(s: State, size: nat, k: nat)
    requires PrimedWith(s, size, k) && k < size
    ensures PrimedWith(Step(Step(s, PrimeBoot(k, true)), PrimeAppend(k)), size, k + 1)
  {
    PrimeOne(s, k);
  }

  /** Priming with boots that succeed fills the pool to its size. */
  lemma {:induction false} PrimeFills(size: nat, k: nat)
    requires k <= size
    ensures PrimedWith(Run(size, PrimeRun(k)), size, k)
    decreases k
  {
    if k > 0 {
      PrimeFills(size, k - 1);
      PrimedMore(Run(size, PrimeRun(k - 1)), size, k - 1);
      TwoMore(size, PrimeRun(k - 1), PrimeBoot(k - 1, true), PrimeAppend(k - 1));
    }
  }
}
