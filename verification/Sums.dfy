/** Sums of natural weights over finite maps, independent of iteration order. */
module Sums {

  ghost function Total<K>(m: map<K, nat>): nat
    decreases |m|
  {
    if m == map[] then 0
    else
      var k :| k in m;
      m[k] + Total(m - {k})
  }

  // Any key may be taken out first: the sum does not depend on Total's choice.
  lemma {:induction false} TotalRemove<K>(m: map<K, nat>, k: K)
    requires k in m
    ensures Total(m) == m[k] + Total(m - {k})
    decreases |m|
  {
    var c :| c in m && Total(m) == m[c] + Total(m - {c});
    if c != k {
      TotalRemove(m - {c}, k);
      TotalRemove(m - {k}, c);
      assert m - {c} - {k} == m - {k} - {c};
    }
  }

  lemma TotalUpdate<K>(m: map<K, nat>, k: K, v: nat)
    ensures Total(m[k := v]) == Total(m - {k}) + v
    ensures Total(m[k := v]) == Total(m) + v - (if k in m then m[k] else 0)
  {
    TotalRemove(m[k := v], k);
    assert m[k := v] - {k} == m - {k};
    if k in m {
      TotalRemove(m, k);
    } else {
      assert m - {k} == m;
    }
  }

  // Splitting the keys in two splits the sum.
  lemma {:induction false} TotalSplit<K>(m: map<K, nat>, s: set<K>)
    requires s <= m.Keys
    ensures Total(m) == Total(m - s) + Total(map k | k in s :: m[k])
    decreases |s|
  {
    if s == {} {
      assert m - s == m;
    } else {
      var k :| k in s;
      var part := map x | x in s :: m[x];
      var rest := map x | x in s - {k} :: m[x];
      assert part - {k} == rest;
      TotalRemove(part, k);
      TotalSplit(m, s - {k});
      assert (m - (s - {k})) - {k} == m - s;
      TotalRemove(m - (s - {k}), k);
    }
  }

  // ------------------------------------------------------------------ tallies

  ghost function Weights<K, V>(m: map<K, V>, w: V -> nat): map<K, nat> {
    map k | k in m :: w(m[k])
  }

  // The total weight of a map's values.
  ghost function Tally<K, V>(m: map<K, V>, w: V -> nat): nat {
    Total(Weights(m, w))
  }

  lemma TallyUpdate<K, V>(m: map<K, V>, w: V -> nat, k: K, v: V)
    ensures Tally(m[k := v], w) == Tally(m, w) + w(v) - (if k in m then w(m[k]) else 0)
  {
    assert Weights(m[k := v], w) == Weights(m, w)[k := w(v)];
    TotalUpdate(Weights(m, w), k, w(v));
  }

  lemma TallyRemove<K, V>(m: map<K, V>, w: V -> nat, k: K)
    requires k in m
    ensures Tally(m - {k}, w) == Tally(m, w) - w(m[k])
  {
    assert Weights(m - {k}, w) == Weights(m, w) - {k};
    TotalRemove(Weights(m, w), k);
  }

  lemma TallyEmpty<K, V>(m: map<K, V>, w: V -> nat)
    requires m == map[]
    ensures Tally(m, w) == 0
  {
    assert Weights(m, w) == map[];
  }

  ghost function Ones<K, V>(m: map<K, V>, w: V -> nat): set<K> {
    set k | k in m && w(m[k]) == 1
  }

  // With weights 0 and 1 the tally counts.
  lemma {:induction false} TallyCounts<K, V>(m: map<K, V>, w: V -> nat)
    requires forall k :: k in m ==> w(m[k]) <= 1
    ensures Tally(m, w) == |Ones(m, w)|
    decreases |m|
  {
    if m == map[] {
      TallyEmpty(m, w);
    } else {
      var k :| k in m;
      TallyRemove(m, w, k);
      TallyCounts(m - {k}, w);
      assert Ones(m, w) == Ones(m - {k}, w) + if w(m[k]) == 1 then {k} else {};
    }
  }

  // A number that is not taken, and nothing from it on.
  lemma Beyond(taken: set<nat>) returns (t: nat)
    ensures forall x :: x in taken ==> x < t
  {
    if taken == {} {
      t := 0;
    } else {
      var x :| x in taken;
      var rest := Beyond(taken - {x});
      t := if rest <= x then x + 1 else rest;
      assert forall y :: y in taken ==> y == x || y in taken - {x};
    }
  }
}
