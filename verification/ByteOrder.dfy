/**
 Byte strings in the order bbolt keeps its keys: lexicographic, a proper prefix first.
 Big-endian numbers of one width sort by that order exactly as they sort as numbers.
 */
module ByteOrder {

  type Byte = b: int | 0 <= b < 256
  type Bytes = seq<Byte>

  predicate Less(a: Bytes, b: Bytes) {
    if b == [] then false
    else if a == [] then true
    else a[0] < b[0] || (a[0] == b[0] && Less(a[1..], b[1..]))
  }

  predicate AtMost(a: Bytes, b: Bytes) {
    a == b || Less(a, b)
  }

  lemma {:induction false} LessTransitive(a: Bytes, b: Bytes, c: Bytes)
    requires Less(a, b) && Less(b, c)
    ensures Less(a, c)
  {
    if a != [] && a[0] == b[0] == c[0] {
      LessTransitive(a[1..], b[1..], c[1..]);
    }
  }

  lemma {:induction false} LessIrreflexive(a: Bytes)
    ensures !Less(a, a)
  {
    if a != [] {
      LessIrreflexive(a[1..]);
    }
  }

  lemma {:induction false} LessTotal(a: Bytes, b: Bytes)
    ensures Less(a, b) || a == b || Less(b, a)
  {
    if a != [] && b != [] && a[0] == b[0] {
      LessTotal(a[1..], b[1..]);
      if a[1..] == b[1..] {
        assert a == [a[0]] + a[1..] && b == [b[0]] + b[1..];
      }
    }
  }

  lemma LessAsymmetric(a: Bytes, b: Bytes)
    requires Less(a, b)
    ensures !Less(b, a) && a != b
  {
    LessIrreflexive(a);
    if Less(b, a) {
      LessTransitive(a, b, a);
    }
  }

  // ------------------------------------------------------------------ prefixes

  predicate HasPrefix(s: Bytes, p: Bytes) {
    p <= s
  }

  // The keys under a prefix are an interval that begins at the prefix itself ...
  lemma {:induction false} PrefixFirst(s: Bytes, p: Bytes)
    requires HasPrefix(s, p)
    ensures AtMost(p, s)
  {
    if p != [] {
      PrefixFirst(s[1..], p[1..]);
      assert p == [p[0]] + p[1..] && s == [s[0]] + s[1..];
    }
  }

  // ... and nothing else lies inside that interval.
  lemma {:induction false} PrefixConvex(a: Bytes, mid: Bytes, b: Bytes, p: Bytes)
    requires HasPrefix(a, p) && HasPrefix(b, p)
    requires AtMost(a, mid) && AtMost(mid, b)
    ensures HasPrefix(mid, p)
  {
    if p != [] && mid != a && mid != b {
      assert mid != [] && mid[0] == p[0];
      PrefixConvex(a[1..], mid[1..], b[1..], p[1..]);
      assert p == [p[0]] + p[1..] && mid == [mid[0]] + mid[1..];
    }
  }

  // ------------------------------------------------------- big-endian numbers

  function Pow256(n: nat): nat {
    if n == 0 then 1 else 256 * Pow256(n - 1)
  }

  lemma Pow256Values()
    ensures Pow256(2) == 0x1_0000 && Pow256(8) == 0x1_0000_0000_0000_0000
  {
    assert Pow256(3) == 0x100_0000;
    assert Pow256(5) == 0x100_0000_0000;
    assert Pow256(7) == 0x100_0000_0000_0000;
  }

  // binary.BigEndian.PutUintN: the low `width` bytes of n, most significant first.
  function BigEndian(n: nat, width: nat): (b: Bytes)
    ensures |b| == width
  {
    if width == 0 then [] else BigEndian(n / 256, width - 1) + [n % 256]
  }

  // binary.BigEndian.UintN
  function Value(b: Bytes): nat {
    if b == [] then 0 else Value(b[..|b| - 1]) * 256 + b[|b| - 1]
  }

  lemma {:induction false} ValueOfBigEndian(n: nat, width: nat)
    requires n < Pow256(width)
    ensures Value(BigEndian(n, width)) == n
  {
    if width > 0 {
      ValueOfBigEndian(n / 256, width - 1);
      assert BigEndian(n, width)[..width - 1] == BigEndian(n / 256, width - 1);
    }
  }

  lemma {:induction false} ValueBound(b: Bytes)
    ensures Value(b) < Pow256(|b|)
  {
    if b != [] {
      ValueBound(b[..|b| - 1]);
    }
  }

  lemma {:induction false} ValueHead(b: Bytes)
    requires b != []
    ensures Value(b) == b[0] * Pow256(|b| - 1) + Value(b[1..])
  {
    if |b| > 1 {
      var front := b[..|b| - 1];
      ValueHead(front);
      assert b[1..][..|b| - 2] == front[1..];
      Shift(b[0], Pow256(|b| - 2), Value(front[1..]), b[|b| - 1]);
    }
  }

  lemma Shift(head: nat, p: nat, v: nat, t: nat)
    ensures (head * p + v) * 256 + t == head * (256 * p) + (v * 256 + t)
  {
  }

  // Byte order of equally long strings is numeric order.
  lemma {:induction false} ValueOrder(a: Bytes, b: Bytes)
    requires |a| == |b|
    ensures Less(a, b) <==> Value(a) < Value(b)
    ensures a == b <==> Value(a) == Value(b)
  {
    if a != [] {
      ValueHead(a);
      ValueHead(b);
      ValueOrder(a[1..], b[1..]);
      var p := Pow256(|a| - 1);
      ValueBound(a[1..]);
      ValueBound(b[1..]);
      Leading(a[0], Value(a[1..]), b[0], Value(b[1..]), p);
      assert a == [a[0]] + a[1..] && b == [b[0]] + b[1..];
    }
  }

  lemma Leading(x: nat, u: nat, y: nat, v: nat, p: nat)
    requires u < p && v < p
    ensures x < y ==> x * p + u < y * p + v
    ensures y < x ==> y * p + v < x * p + u
  {
    if x < y {
      assert (x + 1) * p <= y * p;
    } else if y < x {
      assert (y + 1) * p <= x * p;
    }
  }

  // A common head can be cancelled; a smaller head of the same length decides.
  lemma {:induction false} LessAppend(a: Bytes, b: Bytes, x: Bytes, y: Bytes)
    requires |a| == |b|
    ensures Less(a, b) ==> Less(a + x, b + y)
    ensures a == b ==> (Less(a + x, b + y) <==> Less(x, y))
  {
    if a == [] {
      assert a + x == x && b + y == y;
    } else {
      assert (a + x)[1..] == a[1..] + x && (b + y)[1..] == b[1..] + y;
      LessAppend(a[1..], b[1..], x, y);
    }
  }

  // ------------------------------------------------------------ sorted walks

  predicate Ascending(s: seq<Bytes>) {
    forall i, j :: 0 <= i < j < |s| ==> Less(s[i], s[j])
  }

  predicate IsLeast(m: Bytes, s: set<Bytes>) {
    m in s && forall x :: x in s ==> AtMost(m, x)
  }

  lemma {:induction false} LeastExists(s: set<Bytes>)
    requires s != {}
    ensures exists m :: IsLeast(m, s)
    ensures forall m, n :: IsLeast(m, s) && IsLeast(n, s) ==> m == n
    decreases |s|
  {
    var e :| e in s;
    if s == {e} {
      assert IsLeast(e, s);
    } else {
      LeastExists(s - {e});
      var r :| IsLeast(r, s - {e});
      LessTotal(e, r);
      var m := if Less(e, r) then e else r;
      forall x | x in s
        ensures AtMost(m, x)
      {
        if x != e {
          assert x in s - {e};
          if m == e && Less(r, x) {
            LessTransitive(e, r, x);
          }
        }
      }
      assert IsLeast(m, s);
    }
    forall m, n | IsLeast(m, s) && IsLeast(n, s)
      ensures m == n
    {
      if m != n {
        LessAsymmetric(m, n);
      }
    }
  }

  // The order in which a bbolt cursor visits a bucket: every key once, ascending.
  function Walk(s: set<Bytes>): (w: seq<Bytes>)
    ensures Ascending(w)
    ensures forall k :: k in w <==> k in s
    decreases |s|
  {
    if s == {} then []
    else
      LeastExists(s);
      var m :| IsLeast(m, s);
      var rest := Walk(s - {m});
      assert forall i :: 0 <= i < |rest| ==> rest[i] in s - {m};
      [m] + rest
  }

  // Two ascending sequences with the same elements are the same sequence.
  lemma {:induction false} AscendingUnique(a: seq<Bytes>, b: seq<Bytes>)
    requires Ascending(a) && Ascending(b)
    requires forall k :: k in a <==> k in b
    ensures a == b
  {
    assert b != [] ==> b[0] in a;
    if a != [] {
      assert a[0] in b && b[0] in a;
      var i :| 0 <= i < |b| && b[i] == a[0];
      var j :| 0 <= j < |a| && a[j] == b[0];
      if i > 0 && j > 0 {
        LessAsymmetric(a[0], a[j]);
        assert false;
      }
      LessIrreflexive(a[0]);
      assert a[0] == b[0];
      forall k
        ensures k in a[1..] <==> k in b[1..]
      {
        if k in a[1..] {
          assert k in b && k != a[0];
        }
        if k in b[1..] {
          assert k in a && k != a[0];
        }
      }
      AscendingUnique(a[1..], b[1..]);
      assert a == [a[0]] + a[1..] && b == [b[0]] + b[1..];
    }
  }
}
