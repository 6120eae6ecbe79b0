/**
 The session manager's disk sweep: idle sessions and sessions over their own quota go first, and
 if the rest together exceed the global ceiling the largest go until they no longer do.
 */
module DiskSweep {
  import Sums

  type Sid = nat

  // What the directory walk measures for a session's workspace.
  type Sizes = Sid -> nat

  // idle: quiet for longer than its TTL. An idle kernel session is left to the kernel sweep.
  datatype Session = Session(kernel: bool, idle: bool)

  ghost function Measured(s: set<Sid>, size: Sizes): map<Sid, nat> {
    map i | i in s :: size(i)
  }

  ghost function Bytes(s: set<Sid>, size: Sizes): nat {
    Sums.Total(Measured(s, size))
  }

  // What the first phase keeps.
  function Within(sessions: map<Sid, Session>, size: Sizes, quota: int): set<Sid> {
    set i | i in sessions && (sessions[i].kernel || !sessions[i].idle) && size(i) <= quota
  }

  // The dropped sessions are the largest ...
  ghost predicate LargestGone(all: set<Sid>, kept: set<Sid>, size: Sizes) {
    forall d, k :: d in all - kept && k in kept ==> size(d) >= size(k)
  }

  // Dropping these brings the rest under the ceiling.
  ghost predicate Enough(all: set<Sid>, gone: set<Sid>, size: Sizes, ceiling: int) {
    gone <= all && Bytes(all - gone, size) <= ceiling
  }

  // ... and no smaller set of sessions would have been enough.
  ghost predicate FewestGone(all: set<Sid>, kept: set<Sid>, size: Sizes, ceiling: int) {
    forall gone :: Enough(all, gone, size, ceiling) ==> |all - kept| <= |gone|
  }

  class Manager {
    var sessions: map<Sid, Session>
    var used: int
    const diskQuota: int
    const globalDiskMax: int

    ghost predicate Valid() {
      diskQuota > 0 && globalDiskMax > 0
    }

    constructor (quota: int, ceiling: int)
      ensures Valid() && sessions == map[] && used == 0
      ensures diskQuota == (if quota <= 0 then 536_870_912 else quota)
      ensures globalDiskMax == (if ceiling <= 0 then 10_737_418_240 else ceiling)
    {
      sessions, used := map[], 0;
      diskQuota := if quota <= 0 then 512 * 1024 * 1024 else quota;
      globalDiskMax := if ceiling <= 0 then 10 * 1024 * 1024 * 1024 else ceiling;
    }

    /** Of the sessions within quota, idle filesystem sessions apart: all survive if they fit the ceiling;
        otherwise the largest go, no more of them than any choice would have had to drop. What stays is
        unchanged and its total recorded. */
    method Sweep(size: Sizes)
      requires Valid()
      modifies this
      ensures forall i :: i in sessions ==> i in old(sessions) && sessions[i] == old(sessions)[i]
      ensures forall i :: i in sessions ==> size(i) <= diskQuota && (sessions[i].kernel || !sessions[i].idle)
      ensures used == Sums.Total(map i | i in sessions :: size(i)) <= globalDiskMax
      ensures var ok := set i | i in old(sessions) && size(i) <= diskQuota
                                && (old(sessions)[i].kernel || !old(sessions)[i].idle);
              && (Bytes(ok, size) <= globalDiskMax ==> sessions.Keys == ok)
              && (forall d, k :: d in ok && d !in sessions && k in sessions ==> size(d) >= size(k))
              && (forall gone: set<Sid> :: gone <= ok && Bytes(ok - gone, size) <= globalDiskMax ==>
                    |ok - sessions.Keys| <= |gone|)
    {
      Evict(size);
      ghost var ok := set i | i in old(sessions) && size(i) <= diskQuota
                              && (old(sessions)[i].kernel || !old(sessions)[i].idle);
      assert ok == Within(old(sessions), size, diskQuota);
      FewestIs(ok, sessions.Keys, size, globalDiskMax);
      BytesIs(sessions.Keys, size);
      assert (map i | i in sessions.Keys :: size(i)) == (map i | i in sessions :: size(i));
    }

    method Evict(size: Sizes)
      requires Valid()
      modifies this
      ensures sessions.Keys <= Within(old(sessions), size, diskQuota)
      ensures forall i :: i in sessions ==> sessions[i] == old(sessions)[i]
      ensures used == Bytes(sessions.Keys, size) <= globalDiskMax
      ensures LargestGone(Within(old(sessions), size, diskQuota), sessions.Keys, size)
      ensures FewestGone(Within(old(sessions), size, diskQuota), sessions.Keys, size, globalDiskMax)
    {
      var live, total := DropOversize(size);
      if total > globalDiskMax {
        live := SortBySizeDescending(live, size);
        total := DropLargest(live, size, total);
      } else {
        assert |sessions.Keys - sessions.Keys| == 0;
      }
      used := total;
    }

    // First phase, in whatever order the map is iterated.
    method DropOversize(size: Sizes) returns (live: seq<Sid>, total: nat)
      modifies `sessions
      ensures forall i :: i in sessions <==>
                i in old(sessions) && size(i) <= diskQuota && (old(sessions)[i].kernel || !old(sessions)[i].idle)
      ensures sessions.Keys == Within(old(sessions), size, diskQuota)
      ensures forall i :: i in sessions ==> sessions[i] == old(sessions)[i]
      ensures Distinct(live) && Elements(live) == sessions.Keys && total == Bytes(sessions.Keys, size)
    {
      var snap := sessions;
      var todo := snap.Keys;
      live, total := [], 0;
      ghost var kept := {};
      while todo != {}
        invariant todo <= snap.Keys
        invariant kept == Within(snap, size, diskQuota) - todo
        invariant sessions.Keys == kept + todo
        invariant forall i :: i in sessions ==> sessions[i] == snap[i]
        invariant Distinct(live) && Elements(live) == kept && total == Bytes(kept, size)
        decreases todo
      {
        var i :| i in todo;
        todo := todo - {i};
        if (!snap[i].kernel && snap[i].idle) || size(i) > diskQuota {
          sessions := sessions - {i};
        } else {
          BytesAdd(kept, i, size);
          total := total + size(i);
          live := live + [i];
          kept := kept + {i};
        }
      }
    }

    // Second phase: live is sorted, largest first; drop from the front until the rest fits.
    method DropLargest(live: seq<Sid>, size: Sizes, sum: nat) returns (total: nat)
      requires Valid() && sum == Bytes(sessions.Keys, size)
      requires Distinct(live) && Elements(live) == sessions.Keys && Descending(live, size)
      modifies `sessions
      ensures sessions.Keys <= old(sessions.Keys)
      ensures forall i :: i in sessions ==> sessions[i] == old(sessions)[i]
      ensures total == Bytes(sessions.Keys, size) <= globalDiskMax
      ensures LargestGone(old(sessions.Keys), sessions.Keys, size)
      ensures FewestGone(old(sessions.Keys), sessions.Keys, size, globalDiskMax)
    {
      ghost var all := sessions.Keys;
      total := sum;
      var n := 0;
      assert live[..0] == [];
      while n < |live| && total > globalDiskMax
        invariant 0 <= n <= |live|
        invariant sessions.Keys == all - Elements(live[..n])
        invariant forall i :: i in sessions ==> sessions[i] == old(sessions)[i]
        invariant total == Bytes(sessions.Keys, size)
        invariant n > 0 ==> Bytes(all - Elements(live[..n - 1]), size) > globalDiskMax
      {
        DropOneMore(live, n, all);
        BytesRemove(sessions.Keys, live[n], size);
        total := total - size(live[n]);
        sessions := sessions - {live[n]};
        n := n + 1;
      }
      if n == |live| {
        assert live[..n] == live && sessions.Keys == {};
        assert Measured({}, size) == map[];
      }
      TopIsLargest(live, n, size, all);
      TopIsFewest(live, n, size, all, globalDiskMax);
    }
  }

  // ------------------------------------------------------------------ sorting

  ghost function Elements(q: seq<Sid>): set<Sid> {
    set i | i in q
  }

  predicate Distinct(q: seq<Sid>) {
    forall i, j :: 0 <= i < j < |q| ==> q[i] != q[j]
  }

  predicate Descending(q: seq<Sid>, size: Sizes) {
    forall i, j :: 0 <= i < j < |q| ==> size(q[i]) >= size(q[j])
  }

  // sort.Slice with the greater size first; equal sizes may come in any order.
  method SortBySizeDescending(live: seq<Sid>, size: Sizes) returns (r: seq<Sid>)
    requires Distinct(live)
    ensures Distinct(r) && Elements(r) == Elements(live) && Descending(r, size)
  {
    r := [];
    for n := 0 to |live|
      invariant Elements(r) == Elements(live[..n]) && Distinct(r) && Descending(r, size)
    {
      var p := 0;
      while p < |r| && size(r[p]) >= size(live[n])
        invariant 0 <= p <= |r|
        invariant forall q :: 0 <= q < p ==> size(r[q]) >= size(live[n])
      {
        p := p + 1;
      }
      assert live[n] !in Elements(r) by { assert live[n] !in live[..n]; }
      InsertedDistinct(r, p, live[n]);
      InsertedElements(r, p, live[n]);
      InsertedDescending(r, p, live[n], size);
      assert live[..n + 1] == live[..n] + [live[n]];
      r := Inserted(r, p, live[n]);
    }
    assert live[..|live|] == live;
  }

  function Inserted(r: seq<Sid>, p: nat, x: Sid): seq<Sid>
    requires p <= |r|
  {
    r[..p] + [x] + r[p..]
  }

  // Where an element of the longer list was in the shorter one.
  lemma {:induction false} InsertedAt(r: seq<Sid>, p: nat, x: Sid, i: nat)
    requires p <= |r| && i <= |r|
    ensures Inserted(r, p, x)[i] == if i < p then r[i] else if i == p then x else r[i - 1]
  {
  }

  lemma {:induction false} InsertedDistinct(r: seq<Sid>, p: nat, x: Sid)
    requires p <= |r| && x !in r && Distinct(r)
    ensures Distinct(Inserted(r, p, x))
  {
    forall i, j | 0 <= i < j < |Inserted(r, p, x)|
      ensures Inserted(r, p, x)[i] != Inserted(r, p, x)[j]
    {
      InsertedAt(r, p, x, i);
      InsertedAt(r, p, x, j);
    }
  }

  lemma {:induction false} InsertedElements(r: seq<Sid>, p: nat, x: Sid)
    requires p <= |r|
    ensures Elements(Inserted(r, p, x)) == Elements(r) + {x}
  {
    assert r == r[..p] + r[p..];
  }

  lemma {:induction false} InsertedDescending(r: seq<Sid>, p: nat, x: Sid, size: Sizes)
    requires p <= |r| && Descending(r, size)
    requires forall q :: 0 <= q < p ==> size(r[q]) >= size(x)
    requires p < |r| ==> size(r[p]) < size(x)
    ensures Descending(Inserted(r, p, x), size)
  {
    forall i, j | 0 <= i < j < |Inserted(r, p, x)|
      ensures size(Inserted(r, p, x)[i]) >= size(Inserted(r, p, x)[j])
    {
      InsertedAt(r, p, x, i);
      InsertedAt(r, p, x, j);
    }
  }

  // ------------------------------------------------------------------ sums

  lemma BytesAdd(s: set<Sid>, i: Sid, size: Sizes)
    requires i !in s
    ensures Bytes(s + {i}, size) == Bytes(s, size) + size(i)
  {
    Sums.TotalRemove(Measured(s + {i}, size), i);
    assert Measured(s + {i}, size) - {i} == Measured(s, size);
  }

  lemma BytesRemove(s: set<Sid>, i: Sid, size: Sizes)
    requires i in s
    ensures Bytes(s - {i}, size) == Bytes(s, size) - size(i)
  {
    BytesAdd(s - {i}, i, size);
    assert s - {i} + {i} == s;
  }

  lemma BytesMinus(s: set<Sid>, part: set<Sid>, size: Sizes)
    requires part <= s
    ensures Bytes(s - part, size) == Bytes(s, size) - Bytes(part, size)
  {
    var m := Measured(s, size);
    Sums.TotalSplit(m, part);
    assert m - part == Measured(s - part, size);
    assert (map x | x in part :: m[x]) == Measured(part, size);
  }

  lemma {:induction false} BytesIs(s: set<Sid>, size: Sizes)
    ensures Bytes(s, size) == Sums.Total(map i | i in s :: size(i))
  {
  }

  // In particular nothing goes when everything fits.
  lemma {:induction false} FewestIs(all: set<Sid>, kept: set<Sid>, size: Sizes, ceiling: int)
    requires FewestGone(all, kept, size, ceiling) && kept <= all
    ensures forall gone: set<Sid> :: gone <= all && Bytes(all - gone, size) <= ceiling ==> |all - kept| <= |gone|
    ensures Bytes(all, size) <= ceiling ==> kept == all
  {
    forall gone: set<Sid> | gone <= all && Bytes(all - gone, size) <= ceiling
      ensures |all - kept| <= |gone|
    {
      assert Enough(all, gone, size, ceiling);
    }
    if Bytes(all, size) <= ceiling {
      assert all - {} == all;
      assert Enough(all, {}, size, ceiling);
      assert all - kept == {};
    }
  }

  // ------------------------------------------------------------------ why greedy is best

  lemma DropOneMore(live: seq<Sid>, n: nat, all: set<Sid>)
    requires n < |live| && Distinct(live) && Elements(live) == all
    ensures live[n] in all - Elements(live[..n])
    ensures all - Elements(live[..n + 1]) == all - Elements(live[..n]) - {live[n]}
  {
    assert live[..n + 1] == live[..n] + [live[n]];
  }

  // The first n of a descending list are no smaller than the others ...
  lemma TopIsLargest(live: seq<Sid>, n: nat, size: Sizes, all: set<Sid>)
    requires n <= |live| && Distinct(live) && Elements(live) == all && Descending(live, size)
    ensures LargestGone(all, all - Elements(live[..n]), size)
  {
    forall d, k | d in Elements(live[..n]) && k in all - Elements(live[..n])
      ensures size(d) >= size(k)
    {
      var i :| 0 <= i < n && live[i] == d;
      var j :| 0 <= j < |live| && live[j] == k;
      assert j >= n;
    }
  }

  // ... and there are n of them.
  lemma TopCount(live: seq<Sid>, n: nat, all: set<Sid>)
    requires n <= |live| && Distinct(live) && Elements(live) == all
    ensures |all - (all - Elements(live[..n]))| == n
  {
    CountElements(live[..n]);
    assert all - (all - Elements(live[..n])) == Elements(live[..n]);
  }

  lemma {:induction false} CountElements(q: seq<Sid>)
    requires Distinct(q)
    ensures |Elements(q)| == |q|
  {
    if q != [] {
      var front, last := q[..|q| - 1], q[|q| - 1];
      CountElements(front);
      assert q == front + [last];
      assert Elements(q) == Elements(front) + {last};
    }
  }

  // No choice of at most m sessions frees more than the m largest do.
  lemma {:induction false} TopFreesMost(live: seq<Sid>, m: nat, size: Sizes, all: set<Sid>, gone: set<Sid>)
    requires m <= |live| && Distinct(live) && Elements(live) == all && Descending(live, size)
    requires gone <= all && |gone| <= m
    ensures Bytes(gone, size) <= Bytes(Elements(live[..m]), size)
  {
    if m == 0 {
      assert gone == {};
      assert Measured(gone, size) == map[];
    } else {
      OneMoreTop(live, m, size, all);
      var less := Elements(live[..m - 1]);
      if gone <= less {
        BytesMinus(less, gone, size);
      } else {
        var d :| d in gone && d !in less;
        NoLargerThan(live, m, size, all, d);
        TopFreesMost(live, m - 1, size, all, gone - {d});
        BytesRemove(gone, d, size);
      }
    }
  }

  lemma {:induction false} OneMoreTop(live: seq<Sid>, m: nat, size: Sizes, all: set<Sid>)
    requires 0 < m <= |live| && Distinct(live) && Elements(live) == all
    ensures Bytes(Elements(live[..m]), size) == Bytes(Elements(live[..m - 1]), size) + size(live[m - 1])
  {
    var less := Elements(live[..m - 1]);
    DropOneMore(live, m - 1, all);
    assert live[..m] == live[..m - 1] + [live[m - 1]];
    assert Elements(live[..m]) == less + {live[m - 1]};
    BytesAdd(less, live[m - 1], size);
  }

  // What is not among the first m - 1 is no larger than the m-th.
  lemma {:induction false} NoLargerThan(live: seq<Sid>, m: nat, size: Sizes, all: set<Sid>, d: Sid)
    requires 0 < m <= |live| && Elements(live) == all && Descending(live, size)
    requires d in all && d !in Elements(live[..m - 1])
    ensures size(d) <= size(live[m - 1])
  {
    var j :| 0 <= j < |live| && live[j] == d;
    assert j >= m - 1;
  }

  // If the n - 1 largest would not have been enough, no n - 1 sessions are.
  lemma TooFewToDrop(live: seq<Sid>, n: nat, size: Sizes, all: set<Sid>, gone: set<Sid>)
    requires n < |live| && Distinct(live) && Elements(live) == all && Descending(live, size)
    requires gone <= all
    ensures |gone| <= n ==> Bytes(all - gone, size) >= Bytes(all - Elements(live[..n]), size)
  {
    if |gone| <= n {
      TopFreesMost(live, n, size, all, gone);
      BytesMinus(all, gone, size);
      BytesMinus(all, Elements(live[..n]), size);
    }
  }

  lemma EnoughIsMany(live: seq<Sid>, n: nat, size: Sizes, all: set<Sid>, gone: set<Sid>, ceiling: int)
    requires 0 < n <= |live| && Distinct(live) && Elements(live) == all && Descending(live, size)
    requires Bytes(all - Elements(live[..n - 1]), size) > ceiling && Enough(all, gone, size, ceiling)
    ensures n <= |gone|
  {
    TooFewToDrop(live, n - 1, size, all, gone);
  }

  // Dropping the n largest, when n - 1 of them would not have been enough, drops as few as possible.
  lemma {:induction false} TopIsFewest(live: seq<Sid>, n: nat, size: Sizes, all: set<Sid>, ceiling: int)
    requires n <= |live| && Distinct(live) && Elements(live) == all && Descending(live, size)
    requires n > 0 ==> Bytes(all - Elements(live[..n - 1]), size) > ceiling
    ensures FewestGone(all, all - Elements(live[..n]), size, ceiling)
  {
    TopCount(live, n, all);
    forall gone | Enough(all, gone, size, ceiling)
      ensures n <= |gone|
    {
      if n > 0 {
        EnoughIsMany(live, n, size, all, gone, ceiling);
      }
    }
  }
}
