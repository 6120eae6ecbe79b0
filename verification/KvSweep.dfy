/**
 The expiry sweep: due entries are collected in a read transaction and acted on in a later
 write transaction, so other writes may commit in between.
 */
module KvSweep {
  import opened Options
  import opened ByteOrder
  import opened TtlIndex
  import opened KvModel

  ghost predicate CollectedFrom(batch: seq<Bytes>, index: set<Bytes>, now: Instant) {
    forall k :: k in batch <==> InDueRun(k, index, now)
  }

  lemma CollectedIsDue(batch: seq<Bytes>, index: set<Bytes>, now: Instant)
    requires CollectedFrom(batch, index, now)
    ensures AllDue(batch, now)
  {
    forall k | k in batch
      ensures Due(k, now)
    {
      assert InDueRun(k, index, now) && AtMost(k, k);
    }
  }

  // Every record that had expired by `now` is in the batch of a sweep that read the clock at `now`.
  lemma {:induction false} ExpiredIsTargeted(db: Db, batch: seq<Bytes>, now: Instant, id: Id)
    requires Invariant(db) && CollectedFrom(batch, db.index, now)
    requires id in db.data && !Live(db.data[id], now)
    ensures exists k :: k in batch && Target(k) == Some(id)
  {
    var e := db.data[id].expires.value;
    var k := TtlKey(e, id.ns, id.key);
    assert k in EntryOf(id, db.data[id]);
    TargetOfEntry(id, e);
    DueIsCollected(k, db.index, now);
    assert k in batch;
  }

  /** Whatever was committed between the two phases (`snapshot` became `current`), the sweep
      removes only records expired at its own clock reading, changes no other record, takes no
      index entry away from a survivor it could still need, and removes every expired record of
      the snapshot that is still there unchanged. */
  lemma {:induction false} TwoPhaseSweep(snapshot: Db, current: Db, batch: seq<Bytes>, now: Instant)
    requires Invariant(snapshot) && Invariant(current)
    requires CollectedFrom(batch, snapshot.index, now)
    ensures Invariant(Swept(current, batch, now))
    ensures forall id :: id in current.data && id !in Swept(current, batch, now).data ==> !Live(current.data[id], now)
    ensures forall id :: id in Swept(current, batch, now).data ==>
      id in current.data && Swept(current, batch, now).data[id] == current.data[id]
    ensures forall id :: id in Swept(current, batch, now).data && Representable(current.data[id]) ==>
      EntryOf(id, current.data[id]) <= Swept(current, batch, now).index
    ensures forall id :: (id in snapshot.data && !Live(snapshot.data[id], now)
                          && id in current.data && current.data[id] == snapshot.data[id])
                         ==> id !in Swept(current, batch, now).data
  {
    CollectedIsDue(batch, snapshot.index, now);
    SweepKeepsInvariant(current, batch, now);
    forall id | id in snapshot.data && !Live(snapshot.data[id], now)
      && id in current.data && current.data[id] == snapshot.data[id]
      ensures id in Reclaimed(current.data, batch, now)
    {
      ExpiredIsTargeted(snapshot, batch, now, id);
    }
  }

  /** With nothing committed in between and every expiry representable, the sweep leaves exactly
      the live records and exactly their entries. */
  lemma {:induction false} AtomicSweepIsExact(db: Db, batch: seq<Bytes>, now: Instant)
    requires Invariant(db) && Exact(db) && CollectedFrom(batch, db.index, now)
    requires AllRecordsRepresentable(db)
    ensures Swept(db, batch, now).data == Visible(db.data, now)
    ensures Exact(Swept(db, batch, now))
  {
    AtomicSweepData(db, batch, now);
    DriftsExactlyWhen(db, db, batch, now);
  }

  lemma AtomicSweepData(db: Db, batch: seq<Bytes>, now: Instant)
    requires Invariant(db) && CollectedFrom(batch, db.index, now)
    ensures Swept(db, batch, now).data == Visible(db.data, now)
  {
    forall id | id in db.data && !Live(db.data[id], now)
      ensures id in Reclaimed(db.data, batch, now)
    {
      ExpiredIsTargeted(db, batch, now, id);
    }
  }

  // ------------------------------------------------------------------ when the index drifts

  ghost function BatchSet(batch: seq<Bytes>): set<Bytes> {
    set k | k in batch
  }

  // The sweep takes a record and its entry together, or neither.
  ghost predicate InStep(db: Db, batch: seq<Bytes>, now: int, id: Id) {
    id in db.data && db.data[id].expires.Some? ==>
      (id in Reclaimed(db.data, batch, now) <==> EntryOf(id, db.data[id]) <= BatchSet(batch))
  }

  /** Whatever the batch, the index is exact after the write phase if and only if it was exact
      record by record: every expiring record goes together with its own entry or not at all. */
  lemma {:induction false} SweptExactIff(db: Db, batch: seq<Bytes>, now: int)
    requires WellKeyed(db.data) && Exact(db)
    ensures Exact(Swept(db, batch, now)) <==> forall id :: InStep(db, batch, now, id)
  {
    if Exact(Swept(db, batch, now)) {
      forall id
        ensures InStep(db, batch, now, id)
      {
        ExactIsInStep(db, batch, now, id);
      }
    }
    if forall id :: InStep(db, batch, now, id) {
      InStepIsExact(db, batch, now);
    }
  }

  lemma {:induction false} ExactIsInStep(db: Db, batch: seq<Bytes>, now: int, id: Id)
    requires WellKeyed(db.data) && Exact(db) && Exact(Swept(db, batch, now))
    ensures InStep(db, batch, now, id)
  {
    if id in db.data && db.data[id].expires.Some? {
      var k := TtlKey(db.data[id].expires.value, id.ns, id.key);
      var after := Swept(db, batch, now);
      EntriesMember(db.data, k);
      EntriesMember(after.data, k);
      assert k in EntryOf(id, db.data[id]);
      OthersKeepEntries(db.data, id, db.data[id]);
      assert k in Entries(after.data) <==> id in after.data;
    }
  }

  lemma {:induction false} InStepIsExact(db: Db, batch: seq<Bytes>, now: int)
    requires Exact(db) && forall id :: InStep(db, batch, now, id)
    ensures Exact(Swept(db, batch, now))
  {
    var after := Swept(db, batch, now);
    forall k
      ensures k in after.index <==> k in Entries(after.data)
    {
      EntriesMember(db.data, k);
      EntriesMember(after.data, k);
      if k in db.index {
        var x :| x in db.data && k in EntryOf(x, db.data[x]);
        assert InStep(db, batch, now, x);
      }
      if k in Entries(after.data) {
        var x :| x in after.data && k in EntryOf(x, after.data[x]);
        assert InStep(db, batch, now, x);
      }
    }
  }

  // A key that had expired in the snapshot, and was rewritten with another expiry that had passed
  // by the sweep's clock as well.
  predicate RewrittenExpired(snapshot: Db, current: Db, now: int, id: Id) {
    && id in snapshot.data && !Live(snapshot.data[id], now)
    && id in current.data && !Live(current.data[id], now)
    && current.data[id].expires != snapshot.data[id].expires
  }

  ghost predicate AllRecordsRepresentable(db: Db) {
    forall id :: id in db.data ==> Representable(db.data[id])
  }

  // What the batch holds of a record: the entry it had in the snapshot, if that had expired.
  lemma {:induction false} InBatch(snapshot: Db, batch: seq<Bytes>, now: Instant, id: Id, e: int)
    requires Invariant(snapshot) && Exact(snapshot) && AllRecordsRepresentable(snapshot)
    requires CollectedFrom(batch, snapshot.index, now) && ValidNamespace(id.ns) && 0 <= e < TWO_63
    ensures TtlKey(e, id.ns, id.key) in batch <==>
              id in snapshot.data && snapshot.data[id].expires == Some(e) && e <= now
  {
    var k := TtlKey(e, id.ns, id.key);
    TargetOfEntry(id, e);
    EntriesMember(snapshot.data, k);
    if k in batch {
      CollectedIsDue(batch, snapshot.index, now);
      assert InDueRun(k, snapshot.index, now);
      var x :| x in snapshot.data && k in EntryOf(x, snapshot.data[x]);
      TargetOfEntry(x, snapshot.data[x].expires.value);
    }
    if id in snapshot.data && snapshot.data[id].expires == Some(e) && e <= now {
      assert k in EntryOf(id, snapshot.data[id]);
      DueIsCollected(k, snapshot.index, now);
    }
  }

  // A batch entry that points at a record is that record's snapshot entry.
  lemma {:induction false} TargetedIsExpired(snapshot: Db, batch: seq<Bytes>, now: Instant, id: Id)
    requires Invariant(snapshot) && Exact(snapshot) && AllRecordsRepresentable(snapshot)
    requires CollectedFrom(batch, snapshot.index, now)
    ensures (exists k :: k in batch && Target(k) == Some(id)) <==> id in snapshot.data && !Live(snapshot.data[id], now)
  {
    if id in snapshot.data && !Live(snapshot.data[id], now) {
      ExpiredIsTargeted(snapshot, batch, now, id);
    }
    forall k | k in batch && Target(k) == Some(id)
      ensures id in snapshot.data && !Live(snapshot.data[id], now)
    {
      assert InDueRun(k, snapshot.index, now);
      EntriesMember(snapshot.data, k);
      var x :| x in snapshot.data && k in EntryOf(x, snapshot.data[x]);
      TargetOfEntry(x, snapshot.data[x].expires.value);
      InBatch(snapshot, batch, now, x, snapshot.data[x].expires.value);
    }
  }

  lemma {:induction false} InStepIff(snapshot: Db, current: Db, batch: seq<Bytes>, now: Instant, id: Id)
    requires Invariant(snapshot) && Exact(snapshot) && AllRecordsRepresentable(snapshot)
    requires Invariant(current) && AllRecordsRepresentable(current)
    requires CollectedFrom(batch, snapshot.index, now)
    ensures InStep(current, batch, now, id) <==> !RewrittenExpired(snapshot, current, now, id)
  {
    if id in current.data && current.data[id].expires.Some? {
      var e := current.data[id].expires.value;
      InBatch(snapshot, batch, now, id, e);
      TargetedIsExpired(snapshot, batch, now, id);
      assert id in Reclaimed(current.data, batch, now) <==>
             !Live(current.data[id], now) && exists k :: k in batch && Target(k) == Some(id);
      assert EntryOf(id, current.data[id]) <= BatchSet(batch) <==> TtlKey(e, id.ns, id.key) in batch;
    }
  }

  /** The index drifts from the data exactly when a key that had expired in the snapshot was
      rewritten, before the write phase, with another expiry that the sweep's clock has passed. */
  lemma {:induction false} DriftsExactlyWhen(snapshot: Db, current: Db, batch: seq<Bytes>, now: Instant)
    requires Invariant(snapshot) && Exact(snapshot) && AllRecordsRepresentable(snapshot)
    requires Invariant(current) && Exact(current) && AllRecordsRepresentable(current)
    requires CollectedFrom(batch, snapshot.index, now)
    ensures Exact(Swept(current, batch, now)) <==> forall id :: !RewrittenExpired(snapshot, current, now, id)
  {
    SweptExactIff(current, batch, now);
    forall id
      ensures InStep(current, batch, now, id) <==> !RewrittenExpired(snapshot, current, now, id)
    {
      InStepIff(snapshot, current, batch, now, id);
    }
  }

  /** A Put that read its clock early and commits between the phases does leave a stale entry: the
      record it wrote is swept with the old entry's help, its own entry stays behind. */
  lemma {:induction false} InterleavedPutLeavesStaleEntry(ns: Bytes, key: Bytes, first: int, second: int,
      now: Instant, batch: seq<Bytes>)
    requires ValidNamespace(ns) && ValidKey(key) && 0 <= first <= now && 0 <= second <= now && first != second
    requires CollectedFrom(batch, {TtlKey(first, ns, key)}, now)
    ensures var id := Id(ns, key);
            var snapshot := Written(Db(map[], {}), id, Record([], [], Some(first), 0, 0));
            var current := Written(snapshot, id, Record([], [], Some(second), 0, 0));
            snapshot.index == {TtlKey(first, ns, key)} && Exact(snapshot) && Exact(current)
            && Swept(current, batch, now) == Db(map[], {TtlKey(second, ns, key)}) && !Exact(Swept(current, batch, now))
  {
    var id, r, q := Id(ns, key), Record([], [], Some(first), 0, 0), Record([], [], Some(second), 0, 0);
    var k, k2 := TtlKey(first, ns, key), TtlKey(second, ns, key);
    var snapshot := Written(Db(map[], {}), id, r);
    var current := Written(snapshot, id, q);
    assert snapshot == Db(map[id := r], {k});
    assert k != k2 by {
      if k == k2 {
        TtlKeyInjective(first, ns, key, second, ns, key);
      }
    }
    assert current == Db(map[id := q], {k2});
    InsertKeepsExact(Db(map[], {}), id, r);
    InsertKeepsExact(Db(map[], {}), id, q);
    TargetOfEntry(id, first);
    DueIsCollected(k, {k}, now);
    assert k2 !in batch && k in batch;
    assert id in Reclaimed(current.data, batch, now);
    assert Swept(current, batch, now).data == map[];
    assert Entries(map[]) == {};
  }

  /** Expiries of 2^63 nanoseconds and later (a TTL that reaches past the year 2262, which Put
      does not refuse) are the whole family for which the index can lose a live record: some
      sweep collects the entry of a live record if and only if its expiry is not representable. */
  lemma {:induction false} EntryLostIff(db: Db, id: Id)
    requires Invariant(db) && Exact(db) && id in db.data && db.data[id].expires.Some?
    ensures (exists now: Instant :: Live(db.data[id], now)
              && InDueRun(TtlKey(db.data[id].expires.value, id.ns, id.key), db.index, now))
            <==> !Representable(db.data[id])
  {
    var e := db.data[id].expires.value;
    TargetOfEntry(id, e);
    if Representable(db.data[id]) {
      forall now: Instant | Live(db.data[id], now)
        ensures !InDueRun(TtlKey(e, id.ns, id.key), db.index, now)
      {
        assert AtMost(TtlKey(e, id.ns, id.key), TtlKey(e, id.ns, id.key));
      }
    } else {
      WrappedEntryIsCollected(db, id);
      assert Live(db.data[id], LAST_INSTANT);
    }
  }

  const LAST_INSTANT: Instant := TWO_63 - 1

  lemma WrappedEntryIsCollected(db: Db, id: Id)
    requires WellKeyed(db.data) && Exact(db) && id in db.data && !Representable(db.data[id])
    ensures InDueRun(TtlKey(db.data[id].expires.value, id.ns, id.key), db.index, LAST_INSTANT)
  {
    var e := db.data[id].expires.value;
    var k := TtlKey(e, id.ns, id.key);
    assert k in db.index;
    ParsedStamp(e, id.ns, id.key);
    forall j | j in db.index
      ensures ParseTtlKey(j).Some? && ParseTtlKey(j).value.ts <= LAST_INSTANT
    {
      EntriesMember(db.data, j);
      var x :| x in db.data && j in EntryOf(x, db.data[x]);
      ParsedStamp(db.data[x].expires.value, x.ns, x.key);
    }
    WrappedStampIsCollected(k, db.index, LAST_INSTANT);
  }

  // One such record, one sweep: the record stays, its entry is gone for good.
  lemma {:induction false} WrappedExpiryLosesItsEntry(ns: Bytes, key: Bytes, now: Instant, batch: seq<Bytes>)
    requires ValidNamespace(ns) && ValidKey(key)
    requires CollectedFrom(batch, {TtlKey(TWO_63, ns, key)}, now)
    ensures var id, r := Id(ns, key), Record([], [], Some(TWO_63), 0, 0);
            var db := Written(Db(map[], {}), id, r);
            Exact(db) && Live(r, now)
            && Swept(db, batch, now) == Db(map[id := r], {}) && !Exact(Swept(db, batch, now))
  {
    var id, r := Id(ns, key), Record([], [], Some(TWO_63), 0, 0);
    var db := Written(Db(map[], {}), id, r);
    var k := TtlKey(TWO_63, ns, key);
    InsertKeepsExact(Db(map[], {}), id, r);
    ParseUndoesTtlKey(TWO_63, ns, key);
    assert db.index == {k};
    WrappedStampIsCollected(k, {k}, now);
    assert Swept(db, batch, now).index == {};
    EntriesMember(db.data, k);
    assert k in Entries(map[id := r]);
  }
}
