/**
 Whole runs of a tenant's file: any sequence of Put, Delete and sweeps, with the two phases of
 several sweeps free to interleave with everything else.
 */
module KvRuns {
  import opened Options
  import opened ByteOrder
  import opened TtlIndex
  import opened KvModel
  import opened KvSweep
  import opened KvPages
  import Sums

  datatype Op =
    | Put(id: Id, val: Bytes, contentType: Bytes, ttl: Duration, at: Instant, encodedLen: nat)
    | Delete(id: Id)
    | Tick(now: Instant)               // the clock advances
    | SweepRead                        // first phase of a sweep, at the current clock
    | SweepWrite(flight: nat)          // second phase of some sweep still in flight
    | SweepAtOnce                      // both phases with nothing in between

  // A sweep between its phases: its clock reading and what it collected.
  datatype Flight = Flight(now: Instant, batch: seq<Bytes>)

  datatype Event = Stored(id: Id, record: Record) | Erased(id: Id)

  // `log` is history: the writes that took effect, in order. `swept` is the latest clock
  // reading of a sweep that has deleted anything.
  datatype Sys = Sys(db: Db, meta: Counters, clock: Instant, flights: seq<Flight>, log: seq<Event>, swept: int)

  const EMPTY := Sys(Db(map[], {}), Counters(0, 0), 0, [], [], -1)

  ghost function DueBatch(index: set<Bytes>, now: Instant): (batch: seq<Bytes>)
    ensures CollectedFrom(batch, index, now)
  {
    Walk(set k | k in index && InDueRun(k, index, now))
  }

  // What Put builds; `at` is its own clock reading, taken before its transaction begins.
  function RecordOf(op: Op): Record
    requires op.Put?
  {
    NewRecord(op.val, op.contentType, op.ttl, op.at, op.encodedLen)
  }

  function Later(a: int, b: int): int {
    if a < b then b else a
  }

  // Put's answer as the code finds it: the quota is judged by the stored counters.
  function Answered(s: Sys, id: Id, r: Record): Outcome {
    if !ValidNamespace(id.ns) then BadNamespace
    else if !ValidKey(id.key) then BadKey
    else if |r.value| > MAX_VALUE_LEN || r.encodedLen > MAX_VALUE_LEN then ValueTooLarge
    else if OverLimit(AfterPut(s.meta, s.db.data, id, r)) then OverQuota
    else Done
  }

  // The batch an operation's write transaction works on, if it is a sweep that has one.
  ghost function BatchOf(s: Sys, op: Op): Flight {
    match op
    case SweepWrite(i) => if i < |s.flights| then s.flights[i] else Flight(s.clock, [])
    case SweepAtOnce => Flight(s.clock, DueBatch(s.db.index, s.clock))
    case _ => Flight(s.clock, [])
  }

  // What an operation hands to writeKVMeta; the counters as they are if it does not call it.
  ghost function Computed(s: Sys, op: Op): Counters {
    match op
    case Put(id, _, _, _, _, _) =>
      if Answered(s, id, RecordOf(op)) == Done then AfterPut(s.meta, s.db.data, id, RecordOf(op)) else s.meta
    case Delete(id) => AfterDelete(s.meta, s.db.data, id)
    case _ => AfterSweep(s.meta, s.db.data, BatchOf(s, op).batch, BatchOf(s, op).now)
  }

  ghost function Step(s: Sys, op: Op): Sys {
    Change(s, op).(meta := Clamp(Computed(s, op)))
  }

  ghost function Change(s: Sys, op: Op): Sys {
    match op
    case Put(id, _, _, _, _, _) =>
      var r := RecordOf(op);
      if Answered(s, id, r) == Done
      then s.(db := Written(s.db, id, r), log := s.log + [Stored(id, r)]) else s
    case Delete(id) =>
      s.(db := Removed(s.db, id), log := s.log + [Erased(id)])
    case Tick(now) =>
      s.(clock := Later(s.clock, now))
    case SweepRead =>
      s.(flights := s.flights + [Flight(s.clock, DueBatch(s.db.index, s.clock))])
    case SweepWrite(i) =>
      if i < |s.flights|
      then s.(db := Swept(s.db, s.flights[i].batch, s.flights[i].now),
              flights := s.flights[..i] + s.flights[i + 1..],
              swept := Later(s.swept, s.flights[i].now))
      else s
    case SweepAtOnce =>
      s.(db := Swept(s.db, DueBatch(s.db.index, s.clock), s.clock), swept := Later(s.swept, s.clock))
  }

  ghost function Run(ops: seq<Op>): Sys {
    if ops == [] then EMPTY else Step(Run(ops[..|ops| - 1]), ops[|ops| - 1])
  }

  // The plain map with expiry that the store stands for: the last effective write of a key.
  function LastWrite(log: seq<Event>, id: Id): Option<Record> {
    if log == [] then None
    else
      match log[|log| - 1]
      case Stored(x, r) => if x == id then Some(r) else LastWrite(log[..|log| - 1], id)
      case Erased(x) => if x == id then None else LastWrite(log[..|log| - 1], id)
  }

  ghost predicate FlightsDue(s: Sys) {
    forall i :: 0 <= i < |s.flights| ==> AllDue(s.flights[i].batch, s.flights[i].now) && s.flights[i].now <= s.clock
  }

  // What is stored is the last write; a last write that is not stored expired by some sweep's clock.
  ghost predicate Agrees(db: Db, log: seq<Event>, swept: int, id: Id) {
    if id in db.data then LastWrite(log, id) == Some(db.data[id])
    else LastWrite(log, id).Some? ==> !Live(LastWrite(log, id).value, swept)
  }

  ghost predicate Good(s: Sys) {
    && Invariant(s.db) && Counts(s.meta, s.db.data) && FlightsDue(s) && s.swept <= s.clock
    && forall id :: Agrees(s.db, s.log, s.swept, id)
  }

  // With true counters the quota check refuses exactly what would not fit.
  lemma {:induction false} AnswersTruly(s: Sys, id: Id, r: Record)
    requires Counts(s.meta, s.db.data)
    ensures Answered(s, id, r) == PutOutcome(s.db.data, id, r)
  {
    PutCounts(s.meta, s.db.data, id, r);
  }

  lemma {:induction false} PutChange(s: Sys, op: Op)
    requires Counts(s.meta, s.db.data) && op.Put?
    ensures Change(s, op).db == PutSpec(s.db, op.id, RecordOf(op))
  {
    AnswersTruly(s, op.id, RecordOf(op));
  }

  // Anything else does what a sweep with its batch does, an empty batch being no sweep at all.
  lemma {:induction false} SweepChange(s: Sys, op: Op)
    requires FlightsDue(s) && !op.Put? && !op.Delete?
    ensures Change(s, op).db == Swept(s.db, BatchOf(s, op).batch, BatchOf(s, op).now)
    ensures AllDue(BatchOf(s, op).batch, BatchOf(s, op).now)
  {
    SweptByNothing(s.db, s.clock);
    CollectedIsDue(DueBatch(s.db.index, s.clock), s.db.index, s.clock);
  }

  lemma {:induction false} StepKeepsInvariant(s: Sys, op: Op)
    requires Invariant(s.db) && FlightsDue(s) && Counts(s.meta, s.db.data)
    ensures Invariant(Change(s, op).db)
  {
    match op {
      case Put(id, _, _, _, _, _) =>
        PutChange(s, op);
        PutKeepsInvariant(s.db, id, RecordOf(op));
      case Delete(id) => DeleteKeepsInvariant(s.db, id);
      case _ =>
        SweepChange(s, op);
        SweepKeepsInvariant(s.db, BatchOf(s, op).batch, BatchOf(s, op).now);
    }
  }

  // What is handed to writeKVMeta is never negative: it is the totals of the new contents.
  lemma {:induction false} StepCounts(s: Sys, op: Op)
    requires Counts(s.meta, s.db.data) && FlightsDue(s)
    ensures Counts(Computed(s, op), Change(s, op).db.data) && Clamp(Computed(s, op)) == Computed(s, op)
  {
    match op {
      case Put(id, _, _, _, _, _) => PutCounts(s.meta, s.db.data, id, RecordOf(op));
      case Delete(id) => RemovedCounts(s, id);
      case _ =>
        SweepCounts(s.meta, s.db.data, BatchOf(s, op).batch, BatchOf(s, op).now);
        SweepChange(s, op);
    }
  }

  lemma {:induction false} RemovedCounts(s: Sys, id: Id)
    requires Counts(s.meta, s.db.data)
    ensures Counts(AfterDelete(s.meta, s.db.data, id), Removed(s.db, id).data)
  {
    DeleteCounts(s.meta, s.db.data, id);
    assert id !in s.db.data ==> s.db.data - {id} == s.db.data;
  }

  lemma StepKeepsFlights(s: Sys, op: Op)
    requires FlightsDue(s) && s.swept <= s.clock
    ensures FlightsDue(Change(s, op)) && Change(s, op).swept <= Change(s, op).clock
  {
    if op.SweepRead? {
      CollectedIsDue(DueBatch(s.db.index, s.clock), s.db.index, s.clock);
    }
  }

  lemma AppendedWrite(log: seq<Event>, e: Event, id: Id)
    ensures LastWrite(log + [e], id) ==
            if e.id != id then LastWrite(log, id) else if e.Stored? then Some(e.record) else None
  {
    assert (log + [e])[..|log|] == log;
  }

  lemma SweepAgrees(db: Db, log: seq<Event>, swept: int, batch: seq<Bytes>, now: int, id: Id)
    requires Agrees(db, log, swept, id)
    ensures Agrees(Swept(db, batch, now), log, Later(swept, now), id)
  {
  }

  lemma StepAgrees(s: Sys, op: Op, id: Id)
    requires Agrees(s.db, s.log, s.swept, id)
    ensures Agrees(Change(s, op).db, Change(s, op).log, Change(s, op).swept, id)
  {
    match op {
      case Put(x, _, _, _, _, _) => AppendedWrite(s.log, Stored(x, RecordOf(op)), id);
      case Delete(x) => AppendedWrite(s.log, Erased(x), id);
      case Tick(now) =>
      case SweepRead =>
      case SweepWrite(i) =>
        if i < |s.flights| {
          SweepAgrees(s.db, s.log, s.swept, s.flights[i].batch, s.flights[i].now, id);
        }
      case SweepAtOnce =>
        SweepAgrees(s.db, s.log, s.swept, DueBatch(s.db.index, s.clock), s.clock, id);
    }
  }

  /** Every run: quotas respected, index serving the sweep, contents agreeing with the log. */
  lemma {:induction false} EveryRunIsGood(ops: seq<Op>)
    ensures Good(Run(ops))
    decreases |ops|
  {
    if ops != [] {
      var s, op := Run(ops[..|ops| - 1]), ops[|ops| - 1];
      EveryRunIsGood(ops[..|ops| - 1]);
      StepKeepsInvariant(s, op);
      StepCounts(s, op);
      StepKeepsFlights(s, op);
      forall id
        ensures Agrees(Change(s, op).db, Change(s, op).log, Change(s, op).swept, id)
      {
        StepAgrees(s, op, id);
      }
    } else {
      assert Sizes(map[]) == map[];
    }
  }

  /** In every run keyCount is the number of stored records and usedBytes the sum of their key and
      encoded lengths, within 10,000 and 10 MiB, and whatever operation comes next, the clamp in
      writeKVMeta does not fire. */
  lemma {:induction false} CountersAreExact(ops: seq<Op>, op: Op)
    ensures var s := Run(ops);
            && s.meta.count == |s.db.data| <= 10_000
            && s.meta.used == Sums.Total(map id | id in s.db.data :: |id.key| + s.db.data[id].encodedLen) <= 10_485_760
            && Computed(s, op).used >= 0 && Computed(s, op).count >= 0
  {
    EveryRunIsGood(ops);
    StepCounts(Run(ops), op);
    FootprintIs(Run(ops).db.data);
  }

  // What a record already stored under the id takes up.
  function Taken(data: map<Id, Record>, id: Id): nat {
    if id in data then |id.key| + data[id].encodedLen else 0
  }

  lemma {:induction false} AnswersInNumbers(s: Sys, op: Op)
    requires op.Put? && Counts(s.meta, s.db.data)
    ensures var data, id, r := s.db.data, op.id, Answered(s, op.id, RecordOf(op));
            var named := NamespaceRule(id.ns) && 1 <= |id.key| <= 512;
            var sized := |op.val| <= 8_388_608 && op.encodedLen <= 8_388_608;
            var total := Sums.Total(map x | x in data :: |x.key| + data[x].encodedLen);
            var fits := && total - Taken(data, id) + |id.key| + op.encodedLen <= 10_485_760
                        && |data.Keys + {id}| <= 10_000;
            && (r == BadNamespace <==> !NamespaceRule(id.ns))
            && (r == BadKey <==> NamespaceRule(id.ns) && !named)
            && (r == ValueTooLarge <==> named && !sized)
            && (r == OverQuota <==> named && sized && !fits)
            && (r == Done <==> named && sized && fits)
  {
    NamespaceExactly(op.id.ns);
    FootprintIs(s.db.data);
    assert op.id in s.db.data ==> s.db.data.Keys + {op.id} == s.db.data.Keys;
  }

  /** Put's answer in every run, in numbers; the first check that fails decides. */
  lemma {:induction false} PutAnswersExactly(ops: seq<Op>, op: Op)
    requires op.Put?
    ensures var data, id, r := Run(ops).db.data, op.id, Answered(Run(ops), op.id, RecordOf(op));
            var named := NamespaceRule(id.ns) && 1 <= |id.key| <= 512;
            var sized := |op.val| <= 8_388_608 && op.encodedLen <= 8_388_608;
            var total := Sums.Total(map x | x in data :: |x.key| + data[x].encodedLen);
            var fits := && total - Taken(data, id) + |id.key| + op.encodedLen <= 10_485_760
                        && |data.Keys + {id}| <= 10_000;
            && (r == BadNamespace <==> !NamespaceRule(id.ns))
            && (r == BadKey <==> NamespaceRule(id.ns) && !named)
            && (r == ValueTooLarge <==> named && !sized)
            && (r == OverQuota <==> named && sized && !fits)
            && (r == Done <==> named && sized && fits)
  {
    EveryRunIsGood(ops);
    AnswersInNumbers(Run(ops), op);
  }

  /** A refused Put changes nothing at all, and any other is logged. */
  lemma {:induction false} RefusedChangesNothing(ops: seq<Op>, op: Op)
    requires op.Put?
    ensures Answered(Run(ops), op.id, RecordOf(op)) != Done ==> Run(ops + [op]) == Run(ops)
    ensures Answered(Run(ops), op.id, RecordOf(op)) == Done <==> |Run(ops + [op]).log| > |Run(ops).log|
  {
    EveryRunIsGood(ops);
    StepCounts(Run(ops), op);
    OneMore(ops, op);
  }

  // ------------------------------------------------------------------ reads ignore sweeps

  // The answer the plain map gives at clock reading `now`.
  function Expected(log: seq<Event>, id: Id, now: int): Option<Record> {
    var w := LastWrite(log, id);
    if w.Some? && Live(w.value, now) then w else None
  }

  function Answer(data: map<Id, Record>, id: Id, now: int): Option<Record> {
    if id in Visible(data, now) then Some(data[id]) else None
  }

  /** A read whose clock is not behind the sweeps it can observe answers as if none ever ran. */
  lemma {:induction false} ReadsIgnoreSweeps(ops: seq<Op>, id: Id, now: int)
    requires now >= Run(ops).swept
    ensures Answer(Run(ops).db.data, id, now) == Expected(Run(ops).log, id, now)
  {
    EveryRunIsGood(ops);
    assert Agrees(Run(ops).db, Run(ops).log, Run(ops).swept, id);
  }

  /** List reads its clock before its transaction, so a sweep with a later clock may commit in
      between. What it then sees lies between the plain map's answers at the two readings. */
  lemma {:induction false} StaleReadsAreBracketed(ops: seq<Op>, id: Id, now: int)
    ensures Answer(Run(ops).db.data, id, now).Some? ==>
      Expected(Run(ops).log, id, now) == Answer(Run(ops).db.data, id, now)
    ensures Expected(Run(ops).log, id, Later(now, Run(ops).swept)).Some? ==>
      Answer(Run(ops).db.data, id, now) == Expected(Run(ops).log, id, Later(now, Run(ops).swept))
  {
    EveryRunIsGood(ops);
    assert Agrees(Run(ops).db, Run(ops).log, Run(ops).swept, id);
  }

  // A record that lives until `latest`, and a sweep at that very moment.
  const KEY_A := Id([97], [97])

  function LateSweep(latest: Instant): seq<Op> {
    [] + [Put(KEY_A, [], [], latest, 0, 0)] + [Tick(latest)] + [SweepAtOnce]
  }

  lemma {:induction false} OneMore(ops: seq<Op>, op: Op)
    ensures Run(ops + [op]) == Step(Run(ops), op)
  {
    assert (ops + [op])[..|ops|] == ops;
  }

  lemma {:induction false} StoredOnce(latest: Instant)
    requires latest > 0
    ensures var s, r := Run([] + [Put(KEY_A, [], [], latest, 0, 0)]), Record([], [], Some(latest), 0, 0);
            s.db.data == map[KEY_A := r] && s.log == [Stored(KEY_A, r)] && s.clock == 0 && s.swept == -1
  {
    var op, r := Put(KEY_A, [], [], latest, 0, 0), Record([], [], Some(latest), 0, 0);
    OneMore([], op);
    assert ValidNamespace([97]) && ValidKey([97]);
    assert Answered(EMPTY, KEY_A, r) == Done;
    assert [] + [Stored(KEY_A, r)] == [Stored(KEY_A, r)];
  }

  // The sweep takes the record, and the log keeps it.
  lemma {:induction false} LateSweepRuns(latest: Instant)
    requires latest > 0
    ensures var s := Run(LateSweep(latest));
            s.swept == latest && s.db.data == map[] && s.log == [Stored(KEY_A, Record([], [], Some(latest), 0, 0))]
  {
    var ops := [] + [Put(KEY_A, [], [], latest, 0, 0)] + [Tick(latest)];
    var t := Run(ops);
    StoredOnce(latest);
    OneMore([] + [Put(KEY_A, [], [], latest, 0, 0)], Tick(latest));
    OneMore(ops, SweepAtOnce);
    EveryRunIsGood(ops);
    AtomicSweepData(t.db, DueBatch(t.db.index, t.clock), t.clock);
    assert Visible(t.db.data, latest) == map[];
  }

  lemma {:induction false} LateSweepHides(latest: Instant, now: int)
    requires now < latest && latest > 0
    ensures Run(LateSweep(latest)).swept == latest
    ensures Answer(Run(LateSweep(latest)).db.data, KEY_A, now) == None
    ensures Expected(Run(LateSweep(latest)).log, KEY_A, now).Some?
  {
    LateSweepRuns(latest);
    AppendedWrite([], Stored(KEY_A, Record([], [], Some(latest), 0, 0)), KEY_A);
    assert [] + [Stored(KEY_A, Record([], [], Some(latest), 0, 0))] == Run(LateSweep(latest)).log;
  }

  /** List reads its clock before its transaction. It is sure to answer as the plain map if and only
      if no sweep that may have committed by then read a later clock. */
  lemma {:induction false} ReadsAgreeExactlyWhen(now: Instant, latest: Instant)
    ensures (forall ops, id :: Run(ops).swept <= latest ==>
               Answer(Run(ops).db.data, id, now) == Expected(Run(ops).log, id, now))
            <==> now >= latest
  {
    if now >= latest {
      forall ops, id | Run(ops).swept <= latest
        ensures Answer(Run(ops).db.data, id, now) == Expected(Run(ops).log, id, now)
      {
        ReadsIgnoreSweeps(ops, id, now);
      }
    } else {
      LateSweepHides(latest, now);
    }
  }

  // ------------------------------------------------------------------ what a reader finds

  // Nothing has happened to the key since the log had n events.
  ghost predicate UntouchedSince(log: seq<Event>, n: nat, id: Id) {
    n <= |log| && forall i :: n <= i < |log| ==> log[i].id != id
  }

  lemma {:induction false} LastWriteStays(log: seq<Event>, n: nat, id: Id)
    requires UntouchedSince(log, n, id)
    ensures LastWrite(log, id) == LastWrite(log[..n], id)
    decreases |log|
  {
    if n == |log| {
      assert log[..n] == log;
    } else {
      LastWriteStays(log[..|log| - 1], n, id);
      assert log[..|log| - 1][..n] == log[..n];
    }
  }

  lemma {:induction false} LogGrows(ops: seq<Op>, more: seq<Op>)
    ensures Run(ops).log <= Run(ops + more).log
    decreases |more|
  {
    if more == [] {
      assert ops + more == ops;
    } else {
      LogGrows(ops, more[..|more| - 1]);
      assert (ops + more)[..|ops + more| - 1] == ops + more[..|more| - 1];
    }
  }

  // The key's last write is still what the log had after `ops`.
  lemma {:induction false} StillLast(ops: seq<Op>, more: seq<Op>, id: Id)
    requires UntouchedSince(Run(ops + more).log, |Run(ops).log|, id)
    ensures LastWrite(Run(ops + more).log, id) == LastWrite(Run(ops).log, id)
  {
    LogGrows(ops, more);
    LastWriteStays(Run(ops + more).log, |Run(ops).log|, id);
    assert Run(ops + more).log[..|Run(ops).log|] == Run(ops).log;
  }

  /** After a Put that took effect, and until the key is written or deleted again, a reader at t finds
      the key if and only if it has no TTL or t is before the Put's clock plus the TTL, and finds what
      was put. */
  lemma {:induction false} PutThenRead(ops: seq<Op>, op: Op, more: seq<Op>, t: int)
    requires op.Put? && |Run(ops + [op]).log| > |Run(ops).log|
    requires UntouchedSince(Run(ops + [op] + more).log, |Run(ops + [op]).log|, op.id)
    requires t >= Run(ops + [op] + more).swept
    ensures var data := Run(ops + [op] + more).db.data;
            && (Finds(data, op.id, t) <==> op.ttl <= 0 || t < op.at + op.ttl)
            && (Finds(data, op.id, t) ==>
                  && data[op.id].value == op.val && data[op.id].contentType == op.contentType
                  && data[op.id].expires == (if op.ttl <= 0 then None else Some(op.at + op.ttl))
                  && data[op.id].updated == op.at && data[op.id].encodedLen == op.encodedLen)
  {
    OneMore(ops, op);
    AppendedWrite(Run(ops).log, Stored(op.id, RecordOf(op)), op.id);
    StillLast(ops + [op], more, op.id);
    ReadsIgnoreSweeps(ops + [op] + more, op.id, t);
  }

  /** After a Delete, and until the key is put again, it is not there at any clock reading. */
  lemma {:induction false} DeletedIsGone(ops: seq<Op>, id: Id, more: seq<Op>)
    requires UntouchedSince(Run(ops + [Delete(id)] + more).log, |Run(ops + [Delete(id)]).log|, id)
    ensures id !in Run(ops + [Delete(id)] + more).db.data
  {
    OneMore(ops, Delete(id));
    AppendedWrite(Run(ops).log, Erased(id), id);
    StillLast(ops + [Delete(id)], more, id);
    EveryRunIsGood(ops + [Delete(id)] + more);
    assert Agrees(Run(ops + [Delete(id)] + more).db, Run(ops + [Delete(id)] + more).log,
                  Run(ops + [Delete(id)] + more).swept, id);
  }

  /** A key that was never put, or whose Puts were all refused, is not there. */
  lemma {:induction false} NeverPutIsAbsent(ops: seq<Op>, id: Id)
    requires UntouchedSince(Run(ops).log, 0, id)
    ensures id !in Run(ops).db.data
  {
    EveryRunIsGood(ops);
    LastWriteStays(Run(ops).log, 0, id);
    assert Agrees(Run(ops).db, Run(ops).log, Run(ops).swept, id);
  }

  /** The keys left to list are the plain map's, whatever was swept. */
  lemma {:induction false} ListIgnoresSweeps(ops: seq<Op>, ns: Bytes, prefix: Bytes, now: int,
      cursor: Option<Bytes>, k: Bytes)
    requires now >= Run(ops).swept
    ensures k in Remaining(Run(ops).db.data, ns, prefix, now, cursor)
            <==> Expected(Run(ops).log, Id(ns, k), now).Some? && HasPrefix(k, prefix) && After(k, cursor)
  {
    ReadsIgnoreSweeps(ops, Id(ns, k), now);
    if Id(ns, k) in Run(ops).db.data {
      assert Id(ns, k).key in BucketKeys(Run(ops).db.data, ns);
    }
  }

  // ------------------------------------------------------------------ the index

  ghost predicate AllRepresentable(ops: seq<Op>) {
    forall i :: 0 <= i < |ops| && ops[i].Put? ==> Representable(RecordOf(ops[i]))
  }

  ghost predicate SweepsAtomic(ops: seq<Op>) {
    forall i :: 0 <= i < |ops| ==> !ops[i].SweepWrite?
  }

  ghost predicate ExactAndRepresentable(db: Db) {
    Exact(db) && AllRecordsRepresentable(db)
  }

  lemma StepKeepsIndexExact(s: Sys, op: Op)
    requires Invariant(s.db) && ExactAndRepresentable(s.db) && Counts(s.meta, s.db.data) && !op.SweepWrite?
    requires op.Put? ==> Representable(RecordOf(op))
    ensures ExactAndRepresentable(Change(s, op).db)
  {
    match op {
      case Put(id, _, _, _, _, _) =>
        PutChange(s, op);
        PutKeepsInvariant(s.db, id, RecordOf(op));
      case Delete(id) => DeleteKeepsInvariant(s.db, id);
      case SweepAtOnce => AtomicSweepIsExact(s.db, DueBatch(s.db.index, s.clock), s.clock);
      case _ =>
    }
  }

  /** With no write between the phases of any sweep, the index names exactly the expiring records. */
  lemma {:induction false} AtomicRunsKeepIndexExact(ops: seq<Op>)
    requires AllRepresentable(ops) && SweepsAtomic(ops)
    ensures ExactAndRepresentable(Run(ops).db)
    decreases |ops|
  {
    if ops != [] {
      AtomicRunsKeepIndexExact(ops[..|ops| - 1]);
      EveryRunIsGood(ops[..|ops| - 1]);
      StepKeepsIndexExact(Run(ops[..|ops| - 1]), ops[|ops| - 1]);
    } else {
      assert Entries(map[]) == {};
    }
  }

  // ------------------------------------------------------------------ drift heals

  // An entry names an expiring record, or was left behind by a sweep whose clock had passed it.
  ghost predicate Explained(db: Db, swept: int, k: Bytes) {
    k in db.index ==> k in Entries(db.data) || (ParseTtlKey(k).Some? && 0 <= ParseTtlKey(k).value.ts <= swept)
  }

  ghost predicate Tidy(db: Db, swept: int) {
    AllRecordsRepresentable(db) && forall k :: Explained(db, swept, k)
  }

  lemma {:induction false} RemovedIsTidy(db: Db, swept: int, id: Id)
    requires Tidy(db, swept)
    ensures Tidy(Removed(db, id), swept)
  {
    forall k
      ensures Explained(Removed(db, id), swept, k)
    {
      assert Explained(db, swept, k);
      EntriesMember(db.data, k);
      EntriesMember(Removed(db, id).data, k);
      if k in Removed(db, id).index && k in Entries(db.data) {
        var x :| x in db.data && k in EntryOf(x, db.data[x]);
        assert x in Removed(db, id).data;
      }
    }
  }

  lemma {:induction false} WrittenIsTidy(db: Db, swept: int, id: Id, r: Record)
    requires Tidy(db, swept) && Representable(r)
    ensures Tidy(Written(db, id, r), swept)
  {
    RemovedIsTidy(db, swept, id);
    WrittenIsRemovedPlus(db, id, r);
    forall k
      ensures Explained(Written(db, id, r), swept, k)
    {
      InsertIsExplained(Removed(db, id), swept, id, r, k);
    }
  }

  lemma {:induction false} InsertIsExplained(db: Db, swept: int, id: Id, r: Record, k: Bytes)
    requires Explained(db, swept, k) && id !in db.data
    ensures Explained(Db(db.data[id := r], db.index + EntryOf(id, r)), swept, k)
  {
    var data := db.data[id := r];
    EntriesMember(db.data, k);
    EntriesMember(data, k);
    if k in EntryOf(id, r) {
      assert data[id] == r;
    } else if k in Entries(db.data) {
      var x :| x in db.data && k in EntryOf(x, db.data[x]);
      assert data[x] == db.data[x];
    }
  }

  lemma {:induction false} SweptIsTidy(db: Db, swept: int, batch: seq<Bytes>, now: int)
    requires Tidy(db, swept) && WellKeyed(db.data)
    ensures Tidy(Swept(db, batch, now), Later(swept, now))
  {
    var after := Swept(db, batch, now);
    forall k
      ensures Explained(after, Later(swept, now), k)
    {
      assert Explained(db, swept, k);
      EntriesMember(db.data, k);
      EntriesMember(after.data, k);
      if k in after.index && k in Entries(db.data) {
        var x :| x in db.data && k in EntryOf(x, db.data[x]);
        TargetOfEntry(x, db.data[x].expires.value);
        assert x !in after.data ==> !Live(db.data[x], now);
        assert x in after.data ==> after.data[x] == db.data[x];
      }
    }
  }

  lemma {:induction false} StepIsTidy(s: Sys, op: Op)
    requires Good(s) && Tidy(s.db, s.swept) && (op.Put? ==> Representable(RecordOf(op)))
    ensures Tidy(Change(s, op).db, Change(s, op).swept)
  {
    match op {
      case Put(id, _, _, _, _, _) => WrittenIsTidy(s.db, s.swept, id, RecordOf(op));
      case Delete(id) => RemovedIsTidy(s.db, s.swept, id);
      case SweepWrite(i) =>
        if i < |s.flights| {
          SweptIsTidy(s.db, s.swept, s.flights[i].batch, s.flights[i].now);
        }
      case SweepAtOnce => SweptIsTidy(s.db, s.swept, DueBatch(s.db.index, s.clock), s.clock);
      case _ =>
    }
  }

  lemma {:induction false} EveryRunIsTidy(ops: seq<Op>)
    requires AllRepresentable(ops)
    ensures Tidy(Run(ops).db, Run(ops).swept)
    decreases |ops|
  {
    if ops != [] {
      EveryRunIsTidy(ops[..|ops| - 1]);
      EveryRunIsGood(ops[..|ops| - 1]);
      StepIsTidy(Run(ops[..|ops| - 1]), ops[|ops| - 1]);
    }
  }

  /** Drift never lasts: however Puts, Deletes and the phases of any sweeps have interleaved, one
      uninterrupted sweep leaves exactly the live records and exactly their entries. */
  lemma {:induction false} OneSweepHeals(ops: seq<Op>)
    requires AllRepresentable(ops)
    ensures Exact(Step(Run(ops), SweepAtOnce).db)
    ensures Step(Run(ops), SweepAtOnce).db.data == Visible(Run(ops).db.data, Run(ops).clock)
  {
    var s := Run(ops);
    var batch := DueBatch(s.db.index, s.clock);
    EveryRunIsGood(ops);
    EveryRunIsTidy(ops);
    AtomicSweepData(s.db, batch, s.clock);
    forall k
      ensures k in Swept(s.db, batch, s.clock).index <==> k in Entries(Swept(s.db, batch, s.clock).data)
    {
      HealedEntry(s.db, s.swept, batch, s.clock, k);
    }
  }

  lemma {:induction false} HealedEntry(db: Db, swept: int, batch: seq<Bytes>, now: Instant, k: Bytes)
    requires Invariant(db) && Tidy(db, swept) && swept <= now && CollectedFrom(batch, db.index, now)
    ensures k in Swept(db, batch, now).index <==> k in Entries(Swept(db, batch, now).data)
  {
    if k in db.index && k !in batch {
      LeftInIndex(db, swept, batch, now, k);
    }
    EntriesMember(Swept(db, batch, now).data, k);
    if k in Entries(Swept(db, batch, now).data) {
      var x :| x in Swept(db, batch, now).data && k in EntryOf(x, db.data[x]);
      CollectedIsDue(batch, db.index, now);
      SurvivorKeepsEntry(db, batch, now, x);
    }
  }

  // What the sweep leaves in the index is the entry of a record it leaves.
  lemma {:induction false} LeftInIndex(db: Db, swept: int, batch: seq<Bytes>, now: Instant, k: Bytes)
    requires Invariant(db) && Tidy(db, swept) && swept <= now && CollectedFrom(batch, db.index, now)
    requires k in db.index && k !in batch
    ensures k in Entries(Swept(db, batch, now).data)
  {
    assert Explained(db, swept, k);
    NotYetDue(db, batch, now, k);
    EntriesMember(db.data, k);
    var x :| x in db.data && k in EntryOf(x, db.data[x]);
    TargetOfEntry(x, db.data[x].expires.value);
    assert x in Swept(db, batch, now).data;
    EntriesMember(Swept(db, batch, now).data, k);
  }

  lemma {:induction false} NotYetDue(db: Db, batch: seq<Bytes>, now: Instant, k: Bytes)
    requires CollectedFrom(batch, db.index, now) && k in db.index && k !in batch
    ensures ParseTtlKey(k).Some? && 0 <= ParseTtlKey(k).value.ts ==> ParseTtlKey(k).value.ts > now
  {
    if ParseTtlKey(k).Some? && 0 <= ParseTtlKey(k).value.ts <= now {
      DueIsCollected(k, db.index, now);
    }
  }
}
