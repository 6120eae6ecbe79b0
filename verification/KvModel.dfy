/**
 The contents of one tenant's key/value file as values: the records, the `_ttl` index, the
 two quota totals, and what each transaction does to them.
 */
module KvModel {
  import opened Options
  import opened ByteOrder
  import opened TtlIndex
  import Sums

  const MAX_BYTES_PER_TENANT := 10 * 1024 * 1024
  const MAX_KEYS_PER_TENANT := 10_000
  const MAX_NAMESPACE_LEN := 128
  const MAX_KEY_LEN := 512
  const MAX_VALUE_LEN := 8 * 1024 * 1024

  // A clock reading in nanoseconds since 1970 (UnixNano is defined up to the year 2262).
  type Instant = n: int | 0 <= n < TWO_63
  // A time.Duration in nanoseconds.
  type Duration = d: int | -TWO_63 <= d < TWO_63

  datatype Id = Id(ns: Bytes, key: Bytes)

  // expires == None is Go's zero time; encodedLen is the length of the gob encoding.
  datatype Record = Record(value: Bytes, contentType: Bytes, expires: Option<int>, updated: Instant, encodedLen: nat)

  datatype Db = Db(data: map<Id, Record>, index: set<Bytes>)

  datatype Outcome = Done | BadNamespace | BadKey | ValueTooLarge | OverQuota | NotFound | BadCursor | Unavailable

  predicate NamespaceByte(c: Byte) {
    'a' as int <= c <= 'z' as int || 'A' as int <= c <= 'Z' as int || '0' as int <= c <= '9' as int
    || c == '_' as int || c == '-' as int || c == '.' as int || c == ':' as int
  }

  predicate ValidNamespace(ns: Bytes) {
    0 < |ns| <= MAX_NAMESPACE_LEN && forall i :: 0 <= i < |ns| ==> NamespaceByte(ns[i])
  }

  predicate ValidKey(key: Bytes) {
    0 < |key| <= MAX_KEY_LEN
  }

  // 1 to 128 of - . 0-9 : A-Z _ a-z, by byte value.
  predicate NamespaceRule(ns: Bytes) {
    1 <= |ns| <= 128 && forall i :: 0 <= i < |ns| ==>
      (45 <= ns[i] <= 46 || 48 <= ns[i] <= 58 || 65 <= ns[i] <= 90 || ns[i] == 95 || 97 <= ns[i] <= 122)
  }

  lemma {:induction false} NamespaceExactly(ns: Bytes)
    ensures ValidNamespace(ns) <==> NamespaceRule(ns)
  {
    assert forall c: Byte :: NamespaceByte(c) <==>
      (45 <= c <= 46 || 48 <= c <= 58 || 65 <= c <= 90 || c == 95 || 97 <= c <= 122);
  }

  predicate Live(r: Record, now: int) {
    r.expires.None? || r.expires.value > now
  }

  // A reader finds the key: it is stored, and has no expiry or one that is still to come.
  predicate Finds(data: map<Id, Record>, id: Id, t: int) {
    id in data && (data[id].expires.None? || t < data[id].expires.value)
  }

  // What readers see at a clock reading: expired records are hidden, not gone.
  function Visible(data: map<Id, Record>, now: int): map<Id, Record> {
    map id | id in data && Live(data[id], now) :: data[id]
  }

  // ------------------------------------------------------------------ quota totals

  function SizeOf(key: Bytes, r: Record): nat {
    |key| + r.encodedLen
  }

  ghost function Sizes(data: map<Id, Record>): map<Id, nat> {
    map id | id in data :: SizeOf(id.key, data[id])
  }

  ghost function Footprint(data: map<Id, Record>): nat {
    Sums.Total(Sizes(data))
  }

  ghost predicate Fits(data: map<Id, Record>) {
    Footprint(data) <= MAX_BYTES_PER_TENANT && |data| <= MAX_KEYS_PER_TENANT
  }

  lemma {:induction false} FootprintUpdate(data: map<Id, Record>, id: Id, r: Record)
    ensures Footprint(data[id := r]) == Footprint(data) + |id.key| + r.encodedLen
                                        - (if id in data then |id.key| + data[id].encodedLen else 0)
    ensures |data[id := r]| == if id in data then |data| else |data| + 1
  {
    SizesUpdate(data, id, r);
    Sums.TotalUpdate(Sizes(data), id, SizeOf(id.key, r));
    CountUpdate(data, id, r);
  }

  lemma SizesUpdate(data: map<Id, Record>, id: Id, r: Record)
    ensures Sizes(data[id := r]) == Sizes(data)[id := SizeOf(id.key, r)]
  {
  }

  lemma CountUpdate(data: map<Id, Record>, id: Id, r: Record)
    ensures |data[id := r]| == if id in data then |data| else |data| + 1
  {
    assert data[id := r].Keys == data.Keys + {id};
  }

  // The sum with its summand written out.
  lemma {:induction false} FootprintIs(data: map<Id, Record>)
    ensures Footprint(data) == Sums.Total(map id | id in data :: |id.key| + data[id].encodedLen)
    ensures data == map[] ==> Footprint(data) == 0
  {
    assert Sizes(data) == map id | id in data :: |id.key| + data[id].encodedLen;
  }

  lemma {:induction false} FootprintRemove(data: map<Id, Record>, id: Id)
    requires id in data
    ensures Footprint(data - {id}) == Footprint(data) - |id.key| - data[id].encodedLen
    ensures |data - {id}| == |data| - 1
  {
    Sums.TotalRemove(Sizes(data), id);
    assert Sizes(data - {id}) == Sizes(data) - {id};
    assert (data - {id}).Keys == data.Keys - {id};
  }

  lemma FootprintShrinks(data: map<Id, Record>, gone: set<Id>)
    requires gone <= data.Keys
    ensures Footprint(data - gone) <= Footprint(data)
    ensures |data - gone| == |data| - |gone|
  {
    Sums.TotalSplit(Sizes(data), gone);
    assert Sizes(data - gone) == Sizes(data) - gone;
    assert (data - gone).Keys == data.Keys - gone;
    assert data.Keys == (data.Keys - gone) + gone;
  }

  // ------------------------------------------------------------------ the index

  function EntryOf(id: Id, r: Record): set<Bytes> {
    if r.expires.Some? then {TtlKey(r.expires.value, id.ns, id.key)} else {}
  }

  ghost function Entries(data: map<Id, Record>): set<Bytes> {
    set id | id in data && data[id].expires.Some? :: TtlKey(data[id].expires.value, id.ns, id.key)
  }

  predicate WellFormed(id: Id, r: Record) {
    ValidNamespace(id.ns) && ValidKey(id.key) && (r.expires.Some? ==> 0 <= r.expires.value < TWO_64)
  }

  ghost predicate WellKeyed(data: map<Id, Record>) {
    forall id :: id in data ==> WellFormed(id, data[id])
  }

  // An expiry that UnixNano can represent, i.e. before the year 2262.
  predicate Representable(r: Record) {
    r.expires.Some? ==> r.expires.value < TWO_63
  }

  // Every record with a representable expiry can be found by the sweep.
  ghost predicate Covered(db: Db) {
    forall id :: id in db.data && Representable(db.data[id]) ==> EntryOf(id, db.data[id]) <= db.index
  }

  // The index is the expiring records and nothing else.
  ghost predicate Exact(db: Db) {
    db.index == Entries(db.data)
  }

  ghost predicate Invariant(db: Db) {
    WellKeyed(db.data) && Fits(db.data) && Covered(db)
  }

  // ------------------------------------------------------------------ transactions

  function NewRecord(val: Bytes, contentType: Bytes, ttl: Duration, now: Instant, encodedLen: nat): Record {
    Record(val, contentType, if ttl > 0 then Some(now + ttl) else None, now, encodedLen)
  }

  function Written(db: Db, id: Id, r: Record): Db {
    Db(db.data[id := r], db.index - (if id in db.data then EntryOf(id, db.data[id]) else {}) + EntryOf(id, r))
  }

  // Limits are judged on what the file would hold after the write.
  ghost function PutOutcome(data: map<Id, Record>, id: Id, r: Record): Outcome {
    if !ValidNamespace(id.ns) then BadNamespace
    else if !ValidKey(id.key) then BadKey
    else if |r.value| > MAX_VALUE_LEN || r.encodedLen > MAX_VALUE_LEN then ValueTooLarge
    else if !Fits(data[id := r]) then OverQuota
    else Done
  }

  ghost function PutSpec(db: Db, id: Id, r: Record): Db {
    if PutOutcome(db.data, id, r) == Done then Written(db, id, r) else db
  }

  function Removed(db: Db, id: Id): Db {
    if id in db.data then Db(db.data - {id}, db.index - EntryOf(id, db.data[id])) else db
  }

  // The record an index entry points at; an entry that names nothing is junk.
  function Target(k: Bytes): Option<Id> {
    match ParseTtlKey(k)
    case None => None
    case Some(e) => if e.ns == [] && e.key == [] then None else Some(Id(e.ns, e.key))
  }

  function Reclaimed(data: map<Id, Record>, batch: seq<Bytes>, now: int): set<Id> {
    set k | k in batch && Target(k).Some? && Target(k).value in data && !Live(data[Target(k).value], now)
      :: Target(k).value
  }

  // The write transaction of the sweep, for entries collected at clock reading `now`.
  function Swept(db: Db, batch: seq<Bytes>, now: int): Db {
    Db(db.data - Reclaimed(db.data, batch, now), db.index - set k | k in batch)
  }

  // ------------------------------------------------------------------ the counters

  // The two values of the "_meta" bucket.
  datatype Counters = Counters(used: int, count: int)

  ghost predicate Counts(c: Counters, data: map<Id, Record>) {
    c.used == Footprint(data) && c.count == |data|
  }

  // writeKVMeta's last resort.
  function Clamp(c: Counters): Counters {
    Counters(if c.used < 0 then 0 else c.used, if c.count < 0 then 0 else c.count)
  }

  function AfterPut(c: Counters, data: map<Id, Record>, id: Id, r: Record): Counters {
    Counters(c.used - (if id in data then SizeOf(id.key, data[id]) else 0) + SizeOf(id.key, r),
             if id in data then c.count else c.count + 1)
  }

  predicate OverLimit(c: Counters) {
    c.used > MAX_BYTES_PER_TENANT || c.count > MAX_KEYS_PER_TENANT
  }

  function AfterDelete(c: Counters, data: map<Id, Record>, id: Id): Counters {
    if id in data then Counters(c.used - SizeOf(id.key, data[id]), c.count - 1) else c
  }

  // Entry by entry: a record counts when its first entry in the batch is reached.
  function AfterSweep(c: Counters, data: map<Id, Record>, batch: seq<Bytes>, now: int): Counters {
    if batch == [] then c
    else
      var front, k := batch[..|batch| - 1], batch[|batch| - 1];
      AfterEntry(AfterSweep(c, data, front, now), data - Reclaimed(data, front, now), k, now)
  }

  function AfterEntry(c: Counters, data: map<Id, Record>, k: Bytes, now: int): Counters {
    if Expires(data, k, now) then AfterDelete(c, data, Target(k).value) else c
  }

  function WithoutEntry(data: map<Id, Record>, k: Bytes, now: int): map<Id, Record> {
    if Expires(data, k, now) then data - {Target(k).value} else data
  }

  // The entry points at a record that has expired.
  predicate Expires(data: map<Id, Record>, k: Bytes, now: int) {
    Target(k).Some? && Target(k).value in data && !Live(data[Target(k).value], now)
  }

  lemma {:induction false} PutCounts(c: Counters, data: map<Id, Record>, id: Id, r: Record)
    requires Counts(c, data)
    ensures Counts(AfterPut(c, data, id, r), data[id := r])
    ensures OverLimit(AfterPut(c, data, id, r)) <==> !Fits(data[id := r])
  {
    FootprintUpdate(data, id, r);
  }

  lemma {:induction false} DeleteCounts(c: Counters, data: map<Id, Record>, id: Id)
    requires Counts(c, data)
    ensures Counts(AfterDelete(c, data, id), data - {id})
  {
    if id in data {
      FootprintRemove(data, id);
    } else {
      assert data - {id} == data;
    }
  }

  lemma {:induction false} SweptByNothing(db: Db, now: int)
    ensures Swept(db, [], now) == db
  {
    assert db.data - Reclaimed(db.data, [], now) == db.data;
  }

  lemma {:induction false} ReclaimedOneMore(data: map<Id, Record>, front: seq<Bytes>, k: Bytes, now: int)
    ensures Reclaimed(data, front + [k], now)
         == Reclaimed(data, front, now) + (if Expires(data, k, now) then {Target(k).value} else {})
  {
  }

  lemma {:induction false} RestOneMore(data: map<Id, Record>, front: seq<Bytes>, k: Bytes, now: int)
    ensures data - Reclaimed(data, front + [k], now) == WithoutEntry(data - Reclaimed(data, front, now), k, now)
  {
    ReclaimedOneMore(data, front, k, now);
  }

  lemma {:induction false} SweepCounts(c: Counters, data: map<Id, Record>, batch: seq<Bytes>, now: int)
    requires Counts(c, data)
    ensures Counts(AfterSweep(c, data, batch, now), data - Reclaimed(data, batch, now))
    decreases |batch|
  {
    if batch == [] {
      assert data - Reclaimed(data, batch, now) == data;
    } else {
      var front, k := batch[..|batch| - 1], batch[|batch| - 1];
      SweepCounts(c, data, front, now);
      EntryCounts(AfterSweep(c, data, front, now), data - Reclaimed(data, front, now), k, now);
      RestAfter(data, batch, now);
    }
  }

  lemma {:induction false} RestAfter(data: map<Id, Record>, batch: seq<Bytes>, now: int)
    requires batch != []
    ensures var front, k := batch[..|batch| - 1], batch[|batch| - 1];
            data - Reclaimed(data, batch, now) == WithoutEntry(data - Reclaimed(data, front, now), k, now)
  {
    var front, k := batch[..|batch| - 1], batch[|batch| - 1];
    assert batch == front + [k];
    RestOneMore(data, front, k, now);
  }

  lemma {:induction false} EntryCounts(c: Counters, data: map<Id, Record>, k: Bytes, now: int)
    requires Counts(c, data)
    ensures Counts(AfterEntry(c, data, k, now), WithoutEntry(data, k, now))
  {
    if Expires(data, k, now) {
      DeleteCounts(c, data, Target(k).value);
    }
  }

  // ------------------------------------------------------------------ what they keep

  lemma TargetOfEntry(id: Id, e: int)
    requires ValidNamespace(id.ns)
    ensures Target(TtlKey(e, id.ns, id.key)) == Some(id)
    ensures 0 <= e < TWO_63 ==> ParseTtlKey(TtlKey(e, id.ns, id.key)).value.ts == e
  {
    ParseUndoesTtlKey(e, id.ns, id.key);
    if 0 <= e < TWO_63 {
      Pattern(e);
    }
  }

  // Two different records never share an entry.
  lemma {:induction false} EntriesDisjoint(a: Id, r: Record, b: Id, q: Record)
    requires ValidNamespace(a.ns) && ValidNamespace(b.ns) && a != b
    ensures EntryOf(a, r) !! EntryOf(b, q)
  {
    if r.expires.Some? && q.expires.Some? && EntryOf(a, r) == EntryOf(b, q) {
      TargetOfEntry(a, r.expires.value);
      TargetOfEntry(b, q.expires.value);
    }
  }

  // Taking one record's entry out of the index leaves every other record's entry in place.
  lemma OthersKeepEntries(data: map<Id, Record>, id: Id, r: Record)
    requires WellKeyed(data) && ValidNamespace(id.ns)
    ensures forall x :: x in data && x != id ==> EntryOf(x, data[x]) !! EntryOf(id, r)
  {
    forall x | x in data && x != id
      ensures EntryOf(x, data[x]) !! EntryOf(id, r)
    {
      EntriesDisjoint(x, data[x], id, r);
    }
  }

  lemma EntriesMember(data: map<Id, Record>, k: Bytes)
    ensures k in Entries(data) <==> exists x :: x in data && k in EntryOf(x, data[x])
  {
    if k in Entries(data) {
      var x :| x in data && data[x].expires.Some? && k == TtlKey(data[x].expires.value, x.ns, x.key);
      assert k in EntryOf(x, data[x]);
    }
  }

  lemma {:induction false} DeleteKeepsInvariant(db: Db, id: Id)
    requires Invariant(db)
    ensures Invariant(Removed(db, id))
    ensures Exact(db) ==> Exact(Removed(db, id))
  {
    if id in db.data {
      FootprintRemove(db.data, id);
      OthersKeepEntries(db.data, id, db.data[id]);
      if Exact(db) {
        DeleteKeepsExact(db, id);
      }
    }
  }

  lemma DeleteKeepsExact(db: Db, id: Id)
    requires WellKeyed(db.data) && Exact(db) && id in db.data
    ensures Exact(Removed(db, id))
  {
    var next := Removed(db, id);
    OthersKeepEntries(db.data, id, db.data[id]);
    forall k
      ensures k in next.index <==> k in Entries(next.data)
    {
      EntriesMember(db.data, k);
      EntriesMember(next.data, k);
      if k in next.index {
        var x :| x in db.data && k in EntryOf(x, db.data[x]);
        assert x in next.data && next.data[x] == db.data[x];
      }
    }
  }

  // A write is a removal followed by an insertion.
  lemma WrittenIsRemovedPlus(db: Db, id: Id, r: Record)
    ensures Written(db, id, r) == Db(Removed(db, id).data[id := r], Removed(db, id).index + EntryOf(id, r))
  {
    assert db.data[id := r] == Removed(db, id).data[id := r];
  }

  lemma {:induction false} PutKeepsInvariant(db: Db, id: Id, r: Record)
    requires Invariant(db)
    requires r.expires.Some? ==> 0 <= r.expires.value < TWO_64
    ensures Invariant(PutSpec(db, id, r))
    ensures Exact(db) ==> Exact(PutSpec(db, id, r))
  {
    if PutOutcome(db.data, id, r) == Done {
      DeleteKeepsInvariant(db, id);
      WrittenIsRemovedPlus(db, id, r);
      InsertKeepsCovered(Removed(db, id), id, r);
      if Exact(db) {
        InsertKeepsExact(Removed(db, id), id, r);
      }
    }
  }

  lemma InsertKeepsCovered(db: Db, id: Id, r: Record)
    requires WellKeyed(db.data) && Covered(db) && WellFormed(id, r)
    ensures WellKeyed(db.data[id := r]) && Covered(Db(db.data[id := r], db.index + EntryOf(id, r)))
  {
  }

  lemma InsertKeepsExact(db: Db, id: Id, r: Record)
    requires Exact(db) && id !in db.data
    ensures Exact(Db(db.data[id := r], db.index + EntryOf(id, r)))
  {
    var data := db.data[id := r];
    forall k
      ensures k in db.index + EntryOf(id, r) <==> k in Entries(data)
    {
      EntriesMember(db.data, k);
      EntriesMember(data, k);
      if k in db.index {
        var x :| x in db.data && k in EntryOf(x, db.data[x]);
        assert data[x] == db.data[x];
      }
      if k in EntryOf(id, r) {
        assert data[id] == r;
      }
    }
  }

  // What makes the second phase safe: nothing in the batch was stamped after `now`.
  ghost predicate AllDue(batch: seq<Bytes>, now: int) {
    forall k :: k in batch ==> Due(k, now)
  }

  // A surviving record whose entry was in the batch must have an expiry that does not fit int64.
  lemma {:induction false} SurvivorKeepsEntry(db: Db, batch: seq<Bytes>, now: Instant, id: Id)
    requires WellKeyed(db.data) && AllDue(batch, now)
    requires id in Swept(db, batch, now).data && Representable(db.data[id])
    ensures EntryOf(id, db.data[id]) !! (set k | k in batch)
  {
    var r := db.data[id];
    if r.expires.Some? {
      var k := TtlKey(r.expires.value, id.ns, id.key);
      TargetOfEntry(id, r.expires.value);
      assert k in batch ==> id in Reclaimed(db.data, batch, now);
    }
  }

  lemma {:induction false} SweepKeepsInvariant(db: Db, batch: seq<Bytes>, now: Instant)
    requires Invariant(db) && AllDue(batch, now)
    ensures Invariant(Swept(db, batch, now))
  {
    var next := Swept(db, batch, now);
    FootprintShrinks(db.data, Reclaimed(db.data, batch, now));
    forall id | id in next.data && Representable(next.data[id])
      ensures EntryOf(id, next.data[id]) <= next.index
    {
      SurvivorKeepsEntry(db, batch, now, id);
    }
  }
}
