/**
 One tenant's key/value file as the program updates it. Every method is one bbolt transaction:
 it commits as a whole or, when it returns an error, leaves the file as it was.
 */
module KvStore {
  import opened Options
  import opened ByteOrder
  import opened TtlIndex
  import opened KvModel
  import opened KvPages
  import opened KvSweep

  class TenantFile {
    var data: map<Id, Record>   // the "ns:" buckets
    var index: set<Bytes>       // the keys of the "_ttl" bucket
    var used: int               // "_meta" usedBytes
    var count: int              // "_meta" keyCount

    ghost function Contents(): Db
      reads this
    {
      Db(data, index)
    }

    // The counters are the true totals ...
    ghost predicate Counted()
      reads this
    {
      used == Footprint(data) && count == |data|
    }

    // ... within quota, and the index serves the sweep.
    ghost predicate Valid()
      reads this
    {
      Counted() && Invariant(Contents())
    }

    constructor ()
      ensures Valid() && Contents() == Db(map[], {})
    {
      data, index, used, count := map[], {}, 0, 0;
    }

    // The clamp at zero is for counters that drifted: every caller shows that its own did not.
    method WriteMeta(newUsed: int, newCount: int)
      requires newUsed >= 0 && newCount >= 0
      modifies this`used, this`count
      ensures used == newUsed && count == newCount
    {
      used := if newUsed < 0 then 0 else newUsed;
      count := if newCount < 0 then 0 else newCount;
    }

    // `available` is getDB's answer: the tenant id is well-formed, the store not closed, the file open.
    method Put(ns: Bytes, key: Bytes, val: Bytes, contentType: Bytes, ttl: Duration, available: bool, now: Instant,
        encodedLen: nat)
      returns (r: Outcome)
      requires Valid()
      modifies this
      ensures Valid()
      ensures var rec := NewRecord(val, contentType, ttl, now, encodedLen);
              r == if !available && ValidNamespace(ns) && ValidKey(key) && |val| <= MAX_VALUE_LEN then Unavailable
                   else PutOutcome(old(data), Id(ns, key), rec)
      ensures var rec := NewRecord(val, contentType, ttl, now, encodedLen);
              Contents() == if available then PutSpec(old(Contents()), Id(ns, key), rec) else old(Contents())
      ensures r == Done ==> data == old(data)[Id(ns, key) := data[Id(ns, key)]] && Id(ns, key) in data
                            && data[Id(ns, key)].value == val && data[Id(ns, key)].contentType == contentType
                            && data[Id(ns, key)].expires == (if ttl <= 0 then None else Some(now + ttl))
                            && data[Id(ns, key)].updated == now && data[Id(ns, key)].encodedLen == encodedLen
      ensures r != Done ==> unchanged(this)
    {
      if !ValidNamespace(ns) {
        return BadNamespace;
      }
      if key == [] || |key| > MAX_KEY_LEN {
        return BadKey;
      }
      if |val| > MAX_VALUE_LEN {
        return ValueTooLarge;
      }
      if !available {
        return Unavailable;
      }
      if encodedLen > MAX_VALUE_LEN {
        return ValueTooLarge;
      }
      PutKeepsInvariant(Contents(), Id(ns, key), NewRecord(val, contentType, ttl, now, encodedLen));
      r := PutTransaction(Id(ns, key), NewRecord(val, contentType, ttl, now, encodedLen));
    }

    // The db.Update closure of Put. The old index entry is deleted before the quota is checked,
    // so a refusal relies on the rollback.
    method PutTransaction(id: Id, rec: Record) returns (r: Outcome)
      requires Counted() && WellFormed(id, rec) && |rec.value| <= MAX_VALUE_LEN && rec.encodedLen <= MAX_VALUE_LEN
      modifies this
      ensures Counted()
      ensures r == PutOutcome(old(data), id, rec)
      ensures Contents() == PutSpec(old(Contents()), id, rec)
      ensures r != Done ==> unchanged(this)
    {
      var begun := (data, index);
      var oldSize, isNew := 0, true;
      if id in data {
        isNew := false;
        oldSize := SizeOf(id.key, data[id]);
        index := index - EntryOf(id, data[id]);
      }
      var newUsed := used - oldSize + SizeOf(id.key, rec);
      var newCount := if isNew then count + 1 else count;
      PutCounts(Counters(used, count), data, id, rec);
      if newUsed > MAX_BYTES_PER_TENANT || newCount > MAX_KEYS_PER_TENANT {
        data, index := begun.0, begun.1;
        return OverQuota;
      }
      data := data[id := rec];
      index := index + EntryOf(id, rec);
      WriteMeta(newUsed, newCount);
      return Done;
    }

    method Delete(ns: Bytes, key: Bytes, available: bool) returns (r: Outcome)
      requires Valid()
      modifies this
      ensures Valid()
      ensures r == if !ValidNamespace(ns) then BadNamespace
                   else if !ValidKey(key) then BadKey
                   else if !available then Unavailable
                   else Done
      ensures Contents() == if r == Done then Removed(old(Contents()), Id(ns, key)) else old(Contents())
      ensures r == Done ==> data == old(data) - {Id(ns, key)}
    {
      if !ValidNamespace(ns) {
        return BadNamespace;
      }
      if key == [] || |key| > MAX_KEY_LEN {
        return BadKey;
      }
      if !available {
        return Unavailable;
      }
      var id := Id(ns, key);
      if id !in data {
        return Done;
      }
      DeleteKeepsInvariant(Contents(), id);
      FootprintRemove(data, id);
      var freed := SizeOf(key, data[id]);
      index := index - EntryOf(id, data[id]);
      data := data - {id};
      WriteMeta(used - freed, count - 1);
      return Done;
    }

    // Found exactly the visible records; the caller's clock decides what is visible. The ETag is the
    // hash of the value returned.
    method Get(ns: Bytes, key: Bytes, available: bool, now: Instant, hash: Bytes -> Bytes)
      returns (r: Outcome, found: Option<Record>, etag: Bytes)
      ensures r == if !ValidNamespace(ns) then BadNamespace
                   else if !ValidKey(key) then BadKey
                   else if !available then Unavailable
                   else if Finds(data, Id(ns, key), now) then Done
                   else NotFound
      ensures found == if r == Done then Some(data[Id(ns, key)]) else None
      ensures etag == if r == Done then hash(found.value.value) else []
    {
      if !ValidNamespace(ns) {
        return BadNamespace, None, [];
      }
      if key == [] || |key| > MAX_KEY_LEN {
        return BadKey, None, [];
      }
      if !available {
        return Unavailable, None, [];
      }
      if Id(ns, key) !in data {
        return NotFound, None, [];
      }
      var rec := data[Id(ns, key)];
      if rec.expires.Some? && !(rec.expires.value > now) {
        return NotFound, None, [];
      }
      return Done, Some(rec), hash(rec.value);
    }

    // One collected entry: its record is re-read and goes only if it really is expired; the entry
    // goes in any case. `freed` is the size of a record that went.
    method DropDue(k: Bytes, now: Instant) returns (freed: Option<nat>)
      modifies `data, `index
      ensures Contents() == DropOne(old(Contents()), k, now)
      ensures freed.None? ==> data == old(data)
      ensures freed.Some? ==> Footprint(data) == Footprint(old(data)) - freed.value && |data| == |old(data)| - 1
    {
      var target := Target(k);
      index := index - {k};
      if target.None? || target.value !in data || Live(data[target.value], now) {
        return None;
      }
      FootprintRemove(data, target.value);
      freed := Some(SizeOf(target.value.key, data[target.value]));
      data := data - {target.value};
    }

    // The write transaction of the sweep, for a batch collected at its clock reading `now`.
    method SweepWrite(batch: seq<Bytes>, now: Instant) returns (reclaimed: nat)
      requires Valid() && AllDue(batch, now)
      modifies this
      ensures Valid()
      ensures Contents() == Swept(old(Contents()), batch, now)
      ensures reclaimed == old(count) - count
    {
      SweepKeepsInvariant(Contents(), batch, now);
      reclaimed := SweepTransaction(batch, now);
    }

    method SweepTransaction(batch: seq<Bytes>, now: Instant) returns (reclaimed: nat)
      requires Counted()
      modifies this
      ensures Counted()
      ensures Contents() == Swept(old(Contents()), batch, now)
      ensures reclaimed == old(count) - count
    {
      var u, c;
      u, c, reclaimed := DropBatch(batch, now);
      DropAllIsSwept(old(Contents()), batch, now);
      WriteMeta(u, c);
    }

    // The loop, with the counters it keeps in local variables.
    method DropBatch(batch: seq<Bytes>, now: Instant) returns (u: int, c: int, reclaimed: nat)
      requires Counted()
      modifies `data, `index
      ensures Contents() == DropAll(old(Contents()), batch, now)
      ensures u == Footprint(data) && c == |data| && c + reclaimed == count
    {
      u, c, reclaimed := used, count, 0;
      for i := 0 to |batch|
        invariant Contents() == DropAll(old(Contents()), batch[..i], now)
        invariant u == Footprint(data) && c == |data| && c + reclaimed == count
      {
        assert batch[..i + 1][..i] == batch[..i];
        var freed := DropDue(batch[i], now);
        if freed.Some? {
          u, c, reclaimed := u - freed.value, c - 1, reclaimed + 1;
        }
      }
      assert batch[..|batch|] == batch;
    }

    // sweepDB with no other transaction between its two.
    method Sweep(now: Instant) returns (reclaimed: nat)
      requires Valid()
      modifies this
      ensures Valid()
      ensures data == Visible(old(data), now)
      ensures reclaimed == |old(data)| - |data|
    {
      var batch := CollectDue(index, now);
      CollectedIsDue(batch, index, now);
      AtomicSweepData(Contents(), batch, now);
      if |batch| == 0 {
        assert Swept(Contents(), batch, now).data == data;
        return 0;
      }
      reclaimed := SweepWrite(batch, now);
    }

    method List(ns: Bytes, prefix: Bytes, limit: int, token: Token, available: bool, now: Instant)
      returns (r: Outcome, p: Page)
      ensures r == if !ValidNamespace(ns) then BadNamespace
                   else if token.Garbled? then BadCursor
                   else if !available then Unavailable
                   else Done
      ensures if r == Done then IsPageOf(View(data, now, limit), p, ns, prefix, token.key) else p == Page([], None)
      ensures r == Done ==>
                (var n, all := if 1 <= limit <= 1000 then limit else 100, |Selected(data, ns, prefix, now, token.key)|;
                 |p.keys| == (if all > n then n else all) && (p.next.Some? <==> all > n))
      ensures forall k :: k in p.keys ==>
                Matches(data, ns, prefix, now, token.key, k) && !Blocked(data, ns, prefix, token.key, k)
      ensures r == Done ==>
                forall k :: Matches(data, ns, prefix, now, token.key, k) && !Blocked(data, ns, prefix, token.key, k) ==>
                  k in p.keys || (p.next.Some? && Less(p.next.value, k))
    {
      if !ValidNamespace(ns) {
        return BadNamespace, Page([], None);
      }
      if token.Garbled? {
        return BadCursor, Page([], None);
      }
      if !available {
        return Unavailable, Page([], None);
      }
      p := ListBucket(ns, prefix, limit, token.key, now);
      PageCounts(p, Selected(data, ns, prefix, now, token.key), Clamped(limit));
      forall k
        ensures k in Selected(data, ns, prefix, now, token.key)
                <==> Matches(data, ns, prefix, now, token.key, k) && !Blocked(data, ns, prefix, token.key, k)
        ensures p.next.Some? ==> AtMost(k, p.next.value) || Less(p.next.value, k)
      {
        SelectedExactly(data, ns, prefix, now, token.key, k);
        if p.next.Some? {
          LessTotal(k, p.next.value);
        }
      }
      return Done, p;
    }

    // The read transaction of List.
    method ListBucket(ns: Bytes, prefix: Bytes, limit: int, cursor: Option<Bytes>, now: Instant) returns (p: Page)
      ensures IsPageOf(View(data, now, limit), p, ns, prefix, cursor)
    {
      var want := Clamped(limit);
      var bucket := Walk(BucketKeys(data, ns));
      var i := 0;
      while i < |bucket| && !InRange(bucket[i], prefix, cursor)  // Seek, then step past the cursor
        invariant 0 <= i <= |bucket|
        invariant forall j :: 0 <= j < i ==> !InRange(bucket[j], prefix, cursor)
      {
        i := i + 1;
      }
      ghost var first := i;
      RangeIsSuffix(bucket, first, prefix, cursor);
      var keys := [];
      while i < |bucket|
        invariant first <= i <= |bucket|
        invariant forall j :: first <= j < i ==> HasPrefix(bucket[j], prefix)
        invariant Ascending(keys) && |keys| <= want
        invariant forall k :: k in keys <==>
          exists j :: first <= j < i && bucket[j] == k && LiveKey(data, ns, now, bucket[j])
      {
        if !HasPrefix(bucket[i], prefix) {
          break;
        }
        if LiveKey(data, ns, now, bucket[i]) {
          if |keys| == want {
            PageCutShort(data, ns, prefix, cursor, now, bucket, first, i, keys);
            return Page(keys, Some(keys[|keys| - 1]));
          }
          AppendAscending(bucket, i, keys);
          keys := keys + [bucket[i]];
        }
        i := i + 1;
      }
      WholeRun(data, ns, prefix, cursor, now, bucket, first, i, keys);
      return Page(keys, None);
    }
  }

  // One collected entry after another ...
  function DropOne(db: Db, k: Bytes, now: int): Db {
    Db(WithoutEntry(db.data, k, now), db.index - {k})
  }

  function DropAll(db: Db, batch: seq<Bytes>, now: int): Db {
    if batch == [] then db
    else DropOne(DropAll(db, batch[..|batch| - 1], now), batch[|batch| - 1], now)
  }

  // ... does to the file what the sweep is specified to do at once.
  lemma {:induction false} DropAllIsSwept(db: Db, batch: seq<Bytes>, now: int)
    ensures DropAll(db, batch, now) == Swept(db, batch, now)
  {
    if batch == [] {
      SweptByNothing(db, now);
    } else {
      var front, k := batch[..|batch| - 1], batch[|batch| - 1];
      DropAllIsSwept(db, front, now);
      RestAfter(db.data, batch, now);
      IndexOneMore(db.index, front, k);
      assert batch == front + [k];
    }
  }

  lemma {:induction false} IndexOneMore(index: set<Bytes>, front: seq<Bytes>, k: Bytes)
    ensures index - (set x | x in front + [k]) == index - (set x | x in front) - {k}
  {
  }

  // ------------------------------------------------------------------ List's loop

  lemma RangeIsSuffix(bucket: seq<Bytes>, first: nat, prefix: Bytes, cursor: Option<Bytes>)
    requires Ascending(bucket) && first <= |bucket|
    requires forall j :: 0 <= j < first ==> !InRange(bucket[j], prefix, cursor)
    requires first < |bucket| ==> InRange(bucket[first], prefix, cursor)
    ensures forall j :: 0 <= j < |bucket| ==> (InRange(bucket[j], prefix, cursor) <==> first <= j)
  {
    forall j | first < j < |bucket|
      ensures InRange(bucket[j], prefix, cursor)
    {
      var low := if cursor.Some? then cursor.value else prefix;
      if bucket[first] != low {
        LessTransitive(low, bucket[first], bucket[j]);
      }
    }
  }

  lemma AppendAscending(bucket: seq<Bytes>, i: nat, keys: seq<Bytes>)
    requires Ascending(bucket) && Ascending(keys) && i < |bucket|
    requires forall k :: k in keys ==> exists j :: 0 <= j < i && bucket[j] == k
    ensures Ascending(keys + [bucket[i]])
  {
    forall x | 0 <= x < |keys|
      ensures Less(keys[x], bucket[i])
    {
      assert keys[x] in keys;
      var j :| 0 <= j < i && bucket[j] == keys[x];
    }
  }

  // The loop has looked at bucket[first..i]: those carry the prefix and `keys` are the live ones.
  ghost predicate Scanned(data: map<Id, Record>, ns: Bytes, prefix: Bytes, cursor: Option<Bytes>, now: int,
                          bucket: seq<Bytes>, first: nat, i: nat, keys: seq<Bytes>) {
    && first <= i <= |bucket| && Ascending(bucket) && Ascending(keys)
    && (forall k :: k in bucket <==> k in BucketKeys(data, ns))
    && (forall j :: 0 <= j < |bucket| ==> (InRange(bucket[j], prefix, cursor) <==> first <= j))
    && (forall j :: first <= j < i ==> HasPrefix(bucket[j], prefix))
    && (forall k :: k in keys <==> exists j :: first <= j < i && bucket[j] == k && LiveKey(data, ns, now, bucket[j]))
  }

  lemma ReachedAt(data: map<Id, Record>, ns: Bytes, prefix: Bytes, cursor: Option<Bytes>, now: int,
                  bucket: seq<Bytes>, first: nat, i: nat, keys: seq<Bytes>, x: nat)
    requires Scanned(data, ns, prefix, cursor, now, bucket, first, i, keys) && x < |bucket|
    ensures x < i || (x == i && HasPrefix(bucket[i], prefix)) ==>
      (Reached(data, ns, prefix, cursor, bucket[x]) <==> first <= x)
    ensures i <= x && !HasPrefix(bucket[i], prefix) ==> !Reached(data, ns, prefix, cursor, bucket[x])
  {
    assert bucket[x] in bucket;
    if first <= x && (x < i || (x == i && HasPrefix(bucket[i], prefix))) {
      forall j | j in BucketKeys(data, ns) && InRange(j, prefix, cursor) && AtMost(j, bucket[x])
        ensures HasPrefix(j, prefix)
      {
        var y :| 0 <= y < |bucket| && bucket[y] == j;
        if y > x {
          LessAsymmetric(bucket[x], bucket[y]);
        }
      }
    }
    if i <= x && !HasPrefix(bucket[i], prefix) {
      assert bucket[i] in bucket && InRange(bucket[i], prefix, cursor) && AtMost(bucket[i], bucket[x]);
    }
  }

  lemma WholeRun(data: map<Id, Record>, ns: Bytes, prefix: Bytes, cursor: Option<Bytes>, now: int,
                 bucket: seq<Bytes>, first: nat, i: nat, keys: seq<Bytes>)
    requires Scanned(data, ns, prefix, cursor, now, bucket, first, i, keys)
    requires i < |bucket| ==> !HasPrefix(bucket[i], prefix)
    ensures forall k :: k in keys <==> k in Selected(data, ns, prefix, now, cursor)
  {
    forall k
      ensures k in keys <==> k in Selected(data, ns, prefix, now, cursor)
    {
      if k in bucket {
        var x :| 0 <= x < |bucket| && bucket[x] == k;
        ReachedAt(data, ns, prefix, cursor, now, bucket, first, i, keys, x);
        if k in keys {
          var j :| first <= j < i && bucket[j] == k;
          ReachedAt(data, ns, prefix, cursor, now, bucket, first, i, keys, j);
        }
      }
    }
  }

  lemma PageCutShort(data: map<Id, Record>, ns: Bytes, prefix: Bytes, cursor: Option<Bytes>, now: int,
                     bucket: seq<Bytes>, first: nat, i: nat, keys: seq<Bytes>)
    requires Scanned(data, ns, prefix, cursor, now, bucket, first, i, keys) && |keys| > 0
    requires i < |bucket| && HasPrefix(bucket[i], prefix) && LiveKey(data, ns, now, bucket[i])
    ensures IsPage(Page(keys, Some(keys[|keys| - 1])), Selected(data, ns, prefix, now, cursor), |keys|)
  {
    var s, last := Selected(data, ns, prefix, now, cursor), keys[|keys| - 1];
    assert last in keys;
    forall k | k in keys
      ensures k in s
    {
      var j :| first <= j < i && bucket[j] == k;
      ReachedAt(data, ns, prefix, cursor, now, bucket, first, i, keys, j);
      assert bucket[j] in bucket;
    }
    ReachedAt(data, ns, prefix, cursor, now, bucket, first, i, keys, i);
    assert bucket[i] in bucket && bucket[i] in s && Less(last, bucket[i]);
    forall k | k in s && AtMost(k, last)
      ensures k in keys
    {
      var x :| 0 <= x < |bucket| && bucket[x] == k;
      if x >= i {
        assert AtMost(bucket[i], k);
        LessAsymmetric(last, bucket[i]);
        if bucket[i] != k && k != last {
          LessTransitive(bucket[i], k, last);
        }
      }
    }
  }
}
