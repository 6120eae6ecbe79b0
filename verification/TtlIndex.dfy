/**
 The keys of the `_ttl` bucket: ts(8, big-endian) || nsLen(2, big-endian) || ns || userKey,
 and the cursor walk that collects the entries that are due.
 */
module TtlIndex {
  import opened Options
  import opened ByteOrder

  const TWO_63: int := 0x8000_0000_0000_0000
  const TWO_64: int := 0x1_0000_0000_0000_0000

  // Go's conversions between int64 and uint64 keep the 64-bit pattern.
  function ToUint64(n: int): nat {
    n % TWO_64
  }

  function ToInt64(u: nat): int {
    if u < TWO_63 then u else u - TWO_64
  }

  datatype Entry = Entry(ns: Bytes, key: Bytes, ts: int)

  function TtlKey(expires: int, ns: Bytes, key: Bytes): Bytes {
    BigEndian(ToUint64(expires), 8) + BigEndian(|ns| % 0x1_0000, 2) + ns + key
  }

  function ParseTtlKey(k: Bytes): Option<Entry> {
    if |k| < 10 then None
    else
      var nsLen := Value(k[8..10]);
      if 10 + nsLen > |k| then None
      else Some(Entry(k[10..10 + nsLen], k[10 + nsLen..], ToInt64(Value(k[..8]))))
  }

  lemma TtlKeyParts(expires: int, ns: Bytes, key: Bytes)
    ensures |TtlKey(expires, ns, key)| == 10 + |ns| + |key|
    ensures Value(TtlKey(expires, ns, key)[..8]) == ToUint64(expires)
    ensures Value(TtlKey(expires, ns, key)[8..10]) == |ns| % 0x1_0000
    ensures TtlKey(expires, ns, key)[10..] == ns + key
  {
    var stamp, len := BigEndian(ToUint64(expires), 8), BigEndian(|ns| % 0x1_0000, 2);
    assert Value(stamp) == ToUint64(expires) && Value(len) == |ns| % 0x1_0000 by {
      Pow256Values();
      ValueOfBigEndian(ToUint64(expires), 8);
      ValueOfBigEndian(|ns| % 0x1_0000, 2);
    }
    Sections(stamp, len, ns, key);
  }

  lemma Sections(stamp: Bytes, len: Bytes, ns: Bytes, key: Bytes)
    requires |stamp| == 8 && |len| == 2
    ensures var k := stamp + len + ns + key;
            k[..8] == stamp && k[8..10] == len && k[10..] == ns + key
  {
  }

  // The namespace and key always come back; the timestamp comes back as its int64 pattern.
  lemma {:induction false} ParseUndoesTtlKey(expires: int, ns: Bytes, key: Bytes)
    requires |ns| < 0x1_0000
    ensures ParseTtlKey(TtlKey(expires, ns, key)) == Some(Entry(ns, key, ToInt64(ToUint64(expires))))
  {
    TtlKeyParts(expires, ns, key);
    var k := TtlKey(expires, ns, key);
    assert k[10..10 + |ns|] == k[10..][..|ns|] == ns;
    assert k[10 + |ns|..] == k[10..][|ns|..] == key;
  }

  // The timestamp an entry reads back: the expiry itself, or negative from 2^63 on.
  lemma ParsedStamp(expires: int, ns: Bytes, key: Bytes)
    requires |ns| < 0x1_0000 && 0 <= expires < TWO_64
    ensures ParseTtlKey(TtlKey(expires, ns, key)).Some?
    ensures ParseTtlKey(TtlKey(expires, ns, key)).value.ts == if expires < TWO_63 then expires else expires - TWO_64
  {
    ParseUndoesTtlKey(expires, ns, key);
    Pattern(expires);
  }

  lemma Pattern(n: int)
    requires 0 <= n < TWO_64
    ensures ToInt64(ToUint64(n)) == if n < TWO_63 then n else n - TWO_64
  {
  }

  // parseTTLKey undoes ttlKey exactly when the length fits 16 bits and the nanoseconds fit int64.
  lemma {:induction false} RoundTripExact(expires: int, ns: Bytes, key: Bytes)
    ensures ParseTtlKey(TtlKey(expires, ns, key)) == Some(Entry(ns, key, expires))
            <==> |ns| < 0x1_0000 && -TWO_63 <= expires < TWO_63
  {
    if |ns| < 0x1_0000 {
      ParseUndoesTtlKey(expires, ns, key);
    } else {
      TtlKeyParts(expires, ns, key);
      var k := TtlKey(expires, ns, key);
      assert |k[10..10 + |ns| % 0x1_0000]| < |ns|;
    }
  }

  // Distinct records never share an index entry, and one record's entries differ by expiry.
  lemma {:induction false} TtlKeyInjective(e1: int, ns1: Bytes, key1: Bytes, e2: int, ns2: Bytes, key2: Bytes)
    requires |ns1| < 0x1_0000 && |ns2| < 0x1_0000
    requires TtlKey(e1, ns1, key1) == TtlKey(e2, ns2, key2)
    ensures ns1 == ns2 && key1 == key2
    ensures 0 <= e1 < TWO_64 && 0 <= e2 < TWO_64 ==> e1 == e2
  {
    ParseUndoesTtlKey(e1, ns1, key1);
    ParseUndoesTtlKey(e2, ns2, key2);
    if 0 <= e1 < TWO_64 && 0 <= e2 < TWO_64 {
      PatternInjective(e1, e2);
    }
  }

  lemma PatternInjective(a: int, b: int)
    requires 0 <= a < TWO_64 && 0 <= b < TWO_64
    requires ToInt64(ToUint64(a)) == ToInt64(ToUint64(b))
    ensures a == b
  {
    Pattern(a);
    Pattern(b);
  }

  // The first eight bytes decide first, whatever follows them.
  lemma {:induction false} StampOrder(j: Bytes, k: Bytes)
    requires |j| >= 8 && |k| >= 8
    ensures Value(j[..8]) < Value(k[..8]) ==> Less(j, k)
    ensures AtMost(j, k) ==> Value(j[..8]) <= Value(k[..8])
  {
    ValueOrder(j[..8], k[..8]);
    ValueOrder(k[..8], j[..8]);
    LessAppend(j[..8], k[..8], j[8..], k[8..]);
    LessAppend(k[..8], j[..8], k[8..], j[8..]);
    assert j == j[..8] + j[8..] && k == k[..8] + k[8..];
    if Less(k, j) {
      LessAsymmetric(k, j);
    }
  }

  lemma StampOf(expires: int, ns: Bytes, key: Bytes)
    requires 0 <= expires < TWO_64
    ensures |TtlKey(expires, ns, key)| >= 8 && Value(TtlKey(expires, ns, key)[..8]) == expires
  {
    TtlKeyParts(expires, ns, key);
  }

  // Byte order of index entries is expiry order.
  lemma {:induction false} TtlKeyOrder(e1: int, ns1: Bytes, key1: Bytes, e2: int, ns2: Bytes, key2: Bytes)
    requires 0 <= e1 < e2 < TWO_64
    ensures Less(TtlKey(e1, ns1, key1), TtlKey(e2, ns2, key2))
  {
    StampOf(e1, ns1, key1);
    StampOf(e2, ns2, key2);
    StampOrder(TtlKey(e1, ns1, key1), TtlKey(e2, ns2, key2));
  }

  // ---------------------------------------------------------- collecting due entries

  // What the walk does not stop at: junk, or a timestamp that has passed.
  predicate Due(k: Bytes, now: int) {
    match ParseTtlKey(k)
    case None => true
    case Some(e) => e.ts <= now
  }

  // Entries with nothing but due entries up to and including themselves.
  predicate InDueRun(k: Bytes, index: set<Bytes>, now: int) {
    k in index && forall j :: j in index && AtMost(j, k) ==> Due(j, now)
  }

  // The read transaction of sweepDB: walk ascending, stop at the first entry that is not due.
  method CollectDue(index: set<Bytes>, now: int) returns (batch: seq<Bytes>)
    ensures forall k :: k in batch <==> InDueRun(k, index, now)
    ensures Ascending(batch)
  {
    var cursor := Walk(index);
    batch := [];
    var i := 0;
    while i < |cursor|
      invariant 0 <= i <= |cursor|
      invariant batch == cursor[..i]
      invariant forall j :: 0 <= j < i ==> Due(cursor[j], now)
      decreases |cursor| - i
    {
      var parsed := ParseTtlKey(cursor[i]);
      if parsed.Some? && parsed.value.ts > now {
        break;
      }
      batch := batch + [cursor[i]];  // due, or a junk entry to be dropped
      i := i + 1;
    }
    RunIsPrefix(index, cursor, i, now);
  }

  lemma RunIsPrefix(index: set<Bytes>, cursor: seq<Bytes>, n: nat, now: int)
    requires n <= |cursor| && Ascending(cursor)
    requires forall k :: k in cursor <==> k in index
    requires forall j :: 0 <= j < n ==> Due(cursor[j], now)
    requires n < |cursor| ==> !Due(cursor[n], now)
    ensures forall k :: k in cursor[..n] <==> InDueRun(k, index, now)
  {
    forall k
      ensures k in cursor[..n] <==> InDueRun(k, index, now)
    {
      if k in cursor[..n] {
        var i :| 0 <= i < n && cursor[i] == k;
        forall j | j in index && AtMost(j, k)
          ensures Due(j, now)
        {
          var x :| 0 <= x < |cursor| && cursor[x] == j;
          if x > i {
            LessAsymmetric(cursor[i], cursor[x]);
          }
        }
      }
      if InDueRun(k, index, now) {
        var i :| 0 <= i < |cursor| && cursor[i] == k;
        if i >= n {
          assert AtMost(cursor[n], k);
        }
      }
    }
  }

  // A timestamp in [0, now] is reached and collected whatever else the index holds.
  lemma {:induction false} DueIsCollected(k: Bytes, index: set<Bytes>, now: int)
    requires k in index && ParseTtlKey(k).Some?
    requires 0 <= ParseTtlKey(k).value.ts <= now < TWO_63
    ensures InDueRun(k, index, now)
  {
    StampRange(k);
    forall j | j in index && AtMost(j, k)
      ensures Due(j, now)
    {
      if ParseTtlKey(j).Some? {
        StampRange(j);
        StampOrder(j, k);
      }
    }
  }

  lemma StampRange(k: Bytes)
    requires ParseTtlKey(k).Some?
    ensures 0 <= Value(k[..8]) < TWO_64
    ensures ParseTtlKey(k).value.ts == ToInt64(Value(k[..8]))
  {
    Pow256Values();
    ValueBound(k[..8]);
  }

  // Stopping early loses nothing: with every stamp below 2^63 the batch is exactly the due entries.
  lemma {:induction false} CollectsExactlyTheDue(k: Bytes, index: set<Bytes>, now: int)
    requires forall j :: j in index ==> ParseTtlKey(j).Some? && ParseTtlKey(j).value.ts >= 0
    requires now < TWO_63
    ensures InDueRun(k, index, now) <==> k in index && Due(k, now)
  {
    if k in index && Due(k, now) {
      DueIsCollected(k, index, now);
    }
    assert InDueRun(k, index, now) ==> AtMost(k, k);
  }

  // A stamp of 2^63 or more reads back as negative: it counts as due, and it is collected
  // exactly when no entry that is still to come stops the walk before it.
  lemma {:induction false} WrappedStampIsCollected(k: Bytes, index: set<Bytes>, now: int)
    requires k in index && 0 <= now
    requires forall j :: j in index ==> ParseTtlKey(j).Some?
    requires ParseTtlKey(k).value.ts < 0
    ensures InDueRun(k, index, now) <==> forall j :: j in index ==> ParseTtlKey(j).value.ts <= now
  {
    StampRange(k);
    if InDueRun(k, index, now) {
      forall j | j in index
        ensures ParseTtlKey(j).value.ts <= now
      {
        StampRange(j);
        StampOrder(j, k);
        assert ParseTtlKey(j).value.ts >= 0 ==> AtMost(j, k);
      }
    }
  }
}
