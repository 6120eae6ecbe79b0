/**
 The multi-node job queue: submitters, workers and reapers over one stream with a consumer group,
 its list of delivered but unacknowledged messages, and one result list per job id. Every broker
 command is one step; the steps of any number of nodes interleave, and any of them may die between
 two steps.
 */
module JobQueue {
  import opened Options
  import Sums

  type JobId = nat
  type Spec = nat
  type Thread = nat
  type Client = nat

  datatype Job = Job(id: JobId, spec: Spec)

  // What running a spec gave, result or error: different runs may differ.
  datatype Result = Result(spec: Spec, outcome: nat)

  // A worker or reaper: what it has still to process, and where it is in processing the first.
  datatype Progress =
    | Idle(batch: seq<nat>)
    | Ran(msg: nat, result: Result, batch: seq<nat>)
    | Acking(msg: nat, batch: seq<nat>)

  datatype State = State(
    stream: seq<Option<Job>>,         // by position; None is a payload that does not decode
    delivered: nat,                   // the group's cursor: every message below it was delivered
    pending: set<nat>,                // delivered to some consumer and not acknowledged
    lists: map<JobId, seq<Result>>,
    threads: map<Thread, Progress>,
    asked: map<Client, Job>,          // every Submit whose XADD was answered
    waiting: set<Client>,
    answers: map<Client, Result>,
    published: set<nat>,              // history: messages with a result pushed
    skipped: set<nat>)                // history: messages whose attempt went on to its ack without one

  datatype Action =
    | Add(payload: Option<Job>)       // XADD by anyone: another producer, or a reply that got lost
    | Submit(c: Client, job: Job)
    | Pop(c: Client)                  // BLPOP answers
    | GiveUp(c: Client)               // deadline or cancellation
    | Expire(id: JobId)               // the result list's TTL
    | Deliver(t: Thread)              // XREADGROUP >, COUNT 1
    | Claim(t: Thread, batch: seq<nat>) // XAUTOCLAIM, COUNT 16
    | Process(t: Thread, outcome: nat)
    | Panic(t: Thread)                // the run panics: only the deferred ack is still executed
    | Publish(t: Thread, ok: bool)
    | Ack(t: Thread, ok: bool)
    | Die(t: Thread)

  const CLAIM_MAX := 16

  const Start := State([], 0, {}, map[], map[], map[], {}, map[], {}, {})

  predicate Free(s: State, t: Thread) {
    t in s.threads ==> s.threads[t] == Idle([])
  }

  // The thread's next message, when it is between two.
  predicate Begins(s: State, t: Thread) {
    t in s.threads && s.threads[t].Idle? && s.threads[t].batch != [] && s.threads[t].batch[0] < |s.stream|
  }

  function Queued(s: State, id: JobId): seq<Result> {
    if id in s.lists then s.lists[id] else []
  }

  function Step(s: State, a: Action): State {
    match a
    case Add(payload) => s.(stream := s.stream + [payload])
    case Submit(c, job) =>
      if c in s.asked then s
      else s.(stream := s.stream + [Some(job)], asked := s.asked[c := job], waiting := s.waiting + {c})
    case Pop(c) =>
      if c !in s.waiting || c !in s.asked || Queued(s, s.asked[c].id) == [] then s
      else
        var q := Queued(s, s.asked[c].id);
        s.(answers := s.answers[c := q[0]], waiting := s.waiting - {c}, lists := s.lists[s.asked[c].id := q[1..]])
    case GiveUp(c) => s.(waiting := s.waiting - {c})
    case Expire(id) => s.(lists := s.lists - {id})
    case Deliver(t) =>
      if !Free(s, t) || s.delivered >= |s.stream| then s
      else s.(delivered := s.delivered + 1, pending := s.pending + {s.delivered},
              threads := s.threads[t := Idle([s.delivered])])
    case Claim(t, batch) =>
      if !Free(s, t) || |batch| > CLAIM_MAX || !Within(batch, s.pending) then s
      else s.(threads := s.threads[t := Idle(batch)])
    case Process(t, outcome) =>
      if !Begins(s, t) then s else s.(threads := s.threads[t := Attempt(s, s.threads[t].batch, outcome)])
    case Panic(t) =>
      if !Begins(s, t) || s.stream[s.threads[t].batch[0]].None? then s
      else
        var m := s.threads[t].batch[0];
        s.(threads := s.threads[t := Acking(m, [])], skipped := s.skipped + {m})
    case Publish(t, ok) =>
      if t !in s.threads || !s.threads[t].Ran? then s else PublishStep(s, t, s.threads[t], ok)
    case Ack(t, ok) =>
      if t !in s.threads || !s.threads[t].Acking? then s
      else s.(threads := s.threads[t := Idle(s.threads[t].batch)],
              pending := if ok then s.pending - {s.threads[t].msg} else s.pending)
    case Die(t) => s.(threads := s.threads - {t})
  }

  predicate Within(batch: seq<nat>, pending: set<nat>) {
    forall i :: 0 <= i < |batch| ==> batch[i] in pending
  }

  // An undecodable message goes straight to its ack.
  function Attempt(s: State, batch: seq<nat>, outcome: nat): Progress
    requires batch != [] && batch[0] < |s.stream|
  {
    match s.stream[batch[0]]
    case None => Acking(batch[0], batch[1..])
    case Some(job) => Ran(batch[0], Result(job.spec, outcome), batch[1..])
  }

  // A failed publish is logged, and the ack follows all the same.
  function PublishStep(s: State, t: Thread, p: Progress, ok: bool): State
    requires p.Ran?
  {
    var s' := s.(threads := s.threads[t := Acking(p.msg, p.batch)]);
    if !ok || p.msg >= |s.stream| || s.stream[p.msg].None? then s'.(skipped := s.skipped + {p.msg})
    else
      var id := s.stream[p.msg].value.id;
      s'.(published := s.published + {p.msg}, lists := s.lists[id := Queued(s, id) + [p.result]])
  }

  function Run(actions: seq<Action>): State {
    if actions == [] then Start else Step(Run(actions[..|actions| - 1]), actions[|actions| - 1])
  }

  // ------------------------------------------------------------------ what every step keeps

  // Accounted for: waiting to be delivered or acknowledged, or done with.
  predicate MessageSafe(s: State, m: nat) {
    m < s.delivered ==> m in s.pending || Settled(s, m)
  }

  predicate Settled(s: State, m: nat) {
    m < |s.stream| && (s.stream[m].None? || m in s.published || m in s.skipped)
  }

  predicate IsRunOf(r: Result, payload: Option<Job>) {
    payload.Some? && r.spec == payload.value.spec
  }

  predicate ThreadSafe(s: State, t: Thread) {
    t in s.threads ==>
      (var p := s.threads[t];
       && (forall i :: 0 <= i < |p.batch| ==> p.batch[i] < s.delivered)
       && (p.Ran? ==> p.msg < s.delivered <= |s.stream| && IsRunOf(p.result, s.stream[p.msg]))
       && (p.Acking? ==> p.msg < s.delivered && Settled(s, p.msg)))
  }

  // A published message carries this id and this spec.
  ghost predicate Ours(s: State, id: JobId, r: Result) {
    exists m :: m in s.published && m < |s.stream| && s.stream[m] == Some(Job(id, r.spec))
  }

  ghost predicate ListSafe(s: State, id: JobId) {
    forall k :: 0 <= k < |Queued(s, id)| ==> Ours(s, id, Queued(s, id)[k])
  }

  ghost predicate ClientSafe(s: State, c: Client) {
    && (c in s.answers ==> c in s.asked && Ours(s, s.asked[c].id, s.answers[c]))
    && (c in s.asked ==> Some(s.asked[c]) in s.stream)
  }

  ghost predicate Safe(s: State) {
    && s.delivered <= |s.stream|
    && (forall m :: m in s.pending ==> m < s.delivered)
    && (forall m :: m in s.published ==> m < s.delivered && s.stream[m].Some?)
    && (forall m :: MessageSafe(s, m))
    && (forall t :: ThreadSafe(s, t))
    && (forall id :: ListSafe(s, id))
    && (forall c :: ClientSafe(s, c))
  }

  lemma BasicStep(s: State, a: Action)
    requires Safe(s)
    ensures var s' := Step(s, a);
            && s.delivered <= s'.delivered <= |s'.stream| && s.stream <= s'.stream
            && s.published <= s'.published && s.skipped <= s'.skipped
            && (forall m :: m in s'.pending ==> m < s'.delivered)
            && (forall m :: m in s'.published ==> m < s'.delivered && s'.stream[m].Some?)
  {
    if a.Publish? {
      assert ThreadSafe(s, a.t);
    }
  }

  lemma MessageStep(s: State, a: Action, m: nat)
    requires Safe(s)
    ensures MessageSafe(Step(s, a), m)
  {
    assert MessageSafe(s, m);
    if a.Publish? || a.Ack? {
      assert ThreadSafe(s, a.t);
    }
  }

  lemma ThreadStep(s: State, a: Action, t: Thread)
    requires Safe(s)
    ensures ThreadSafe(Step(s, a), t)
  {
    assert ThreadSafe(s, t);
    BasicStep(s, a);
    var s' := Step(s, a);
    if t in s.threads && t in s'.threads && s'.threads[t] == s.threads[t] {
      assert s.stream <= s'.stream;
    } else if t in s'.threads {
      ActingThread(s, a);
    }
  }

  lemma ActingThread(s: State, a: Action)
    requires Safe(s) && (a.Deliver? || a.Claim? || a.Process? || a.Panic? || a.Publish? || a.Ack?)
    ensures ThreadSafe(Step(s, a), a.t)
  {
    assert ThreadSafe(s, a.t);
    if a.Publish? || a.Ack? {
      FinishingThread(s, a);
    }
  }

  lemma FinishingThread(s: State, a: Action)
    requires Safe(s) && (a.Publish? || a.Ack?)
    ensures ThreadSafe(Step(s, a), a.t)
  {
    assert ThreadSafe(s, a.t);
  }

  lemma OursStays(s: State, a: Action, id: JobId, r: Result)
    requires Safe(s) && Ours(s, id, r)
    ensures Ours(Step(s, a), id, r)
  {
    BasicStep(s, a);
    var m :| m in s.published && m < |s.stream| && s.stream[m] == Some(Job(id, r.spec));
    assert Step(s, a).stream[m] == s.stream[m];
  }

  lemma ListStep(s: State, a: Action, id: JobId)
    requires Safe(s)
    ensures ListSafe(Step(s, a), id)
  {
    var s' := Step(s, a);
    assert ListSafe(s, id);
    forall k | 0 <= k < |Queued(s', id)|
      ensures Ours(s', id, Queued(s', id)[k])
    {
      var r := Queued(s', id)[k];
      if r in Queued(s, id) {
        OursStays(s, a, id, r);
      } else {
        NewResult(s, a, id, r);
      }
    }
  }

  lemma NewResult(s: State, a: Action, id: JobId, r: Result)
    requires Safe(s) && r in Queued(Step(s, a), id) && r !in Queued(s, id)
    ensures Ours(Step(s, a), id, r)
  {
    assert a.Publish?;
    assert ThreadSafe(s, a.t);
    var m := s.threads[a.t].msg;
    assert Step(s, a).stream[m] == Some(Job(id, r.spec));
  }

  lemma ClientStep(s: State, a: Action, c: Client)
    requires Safe(s)
    ensures ClientSafe(Step(s, a), c)
  {
    var s' := Step(s, a);
    assert ClientSafe(s, c);
    BasicStep(s, a);
    if c in s'.answers {
      if a == Pop(c) && s' != s {
        assert ListSafe(s, s.asked[c].id);
        OursStays(s, a, s.asked[c].id, s'.answers[c]);
      } else {
        OursStays(s, a, s.asked[c].id, s.answers[c]);
      }
    }
  }

  lemma {:induction false} EveryRunIsSafe(actions: seq<Action>)
    ensures Safe(Run(actions))
    decreases |actions|
  {
    if actions != [] {
      var s, a := Run(actions[..|actions| - 1]), actions[|actions| - 1];
      EveryRunIsSafe(actions[..|actions| - 1]);
      BasicStep(s, a);
      forall m ensures MessageSafe(Step(s, a), m) { MessageStep(s, a, m); }
      forall t ensures ThreadSafe(Step(s, a), t) { ThreadStep(s, a, t); }
      forall id ensures ListSafe(Step(s, a), id) { ListStep(s, a, id); }
      forall c ensures ClientSafe(Step(s, a), c) { ClientStep(s, a, c); }
    }
  }

  // ------------------------------------------------------------------ no job is lost

  // A decodable job that no worker will see again and that has no result.
  predicate Lost(s: State, m: nat) {
    m < s.delivered <= |s.stream| && s.stream[m].Some? && m !in s.pending && m !in s.published
  }

  predicate Clean(actions: seq<Action>) {
    forall i :: 0 <= i < |actions| ==> !actions[i].Panic? && (actions[i].Publish? ==> actions[i].ok)
  }

  lemma {:induction false} CleanRunsSkipNothing(actions: seq<Action>)
    requires Clean(actions)
    ensures Run(actions).skipped == {}
    decreases |actions|
  {
    if actions != [] {
      var front, a := actions[..|actions| - 1], actions[|actions| - 1];
      CleanRunsSkipNothing(front);
      EveryRunIsSafe(front);
      if a.Publish? {
        assert ThreadSafe(Run(front), a.t);
      }
    }
  }

  /** Through any deaths, lost acks and reclaims: while publishes succeed and no run panics, every
      job added is undelivered, pending, or has had a result published. */
  lemma {:induction false} NoJobIsLost(actions: seq<Action>, m: nat)
    requires Clean(actions) && m < |Run(actions).stream| && Run(actions).stream[m].Some?
    ensures var s := Run(actions); m >= s.delivered || m in s.pending || m in s.published
  {
    EveryRunIsSafe(actions);
    CleanRunsSkipNothing(actions);
    assert MessageSafe(Run(actions), m);
  }

  // An ack of m reaches the broker in this step.
  predicate Acks(s: State, a: Action, m: nat) {
    a.Ack? && a.ok && a.t in s.threads && s.threads[a.t].Acking? && s.threads[a.t].msg == m
  }

  // A result of m reaches its list in this step.
  predicate Publishes(s: State, a: Action, m: nat) {
    a.Publish? && a.ok && a.t in s.threads && s.threads[a.t].Ran? && s.threads[a.t].msg == m
  }

  predicate EverAcked(actions: seq<Action>, m: nat) {
    actions != []
    && (|| EverAcked(actions[..|actions| - 1], m)
        || Acks(Run(actions[..|actions| - 1]), actions[|actions| - 1], m))
  }

  predicate EverPublished(actions: seq<Action>, m: nat) {
    actions != []
    && (|| EverPublished(actions[..|actions| - 1], m)
        || Publishes(Run(actions[..|actions| - 1]), actions[|actions| - 1], m))
  }

  lemma {:induction false} StepHistory(s: State, a: Action, m: nat)
    requires Safe(s)
    ensures m in Step(s, a).published <==> m in s.published || Publishes(s, a, m)
    ensures Pending(Step(s, a), m) <==> Pending(s, m) && !Acks(s, a, m)
  {
    if a.Ack? || a.Publish? {
      assert ThreadSafe(s, a.t);
    }
  }

  // Not acknowledged: still to be delivered, or delivered and on the pending list.
  predicate Pending(s: State, m: nat) {
    m >= s.delivered || m in s.pending
  }

  lemma {:induction false} HistoryIsState(actions: seq<Action>, m: nat)
    ensures EverAcked(actions, m) <==> !Pending(Run(actions), m)
    ensures EverPublished(actions, m) <==> m in Run(actions).published
    decreases |actions|
  {
    if actions != [] {
      HistoryIsState(actions[..|actions| - 1], m);
      EveryRunIsSafe(actions[..|actions| - 1]);
      StepHistory(Run(actions[..|actions| - 1]), actions[|actions| - 1], m);
    }
  }

  /** In any run a job is lost exactly if some ack of it reached the broker and none of the attempts
      at it, before or after, got a result published. */
  lemma {:induction false} LostExactlyWhen(actions: seq<Action>, m: nat)
    requires m < |Run(actions).stream| && Run(actions).stream[m].Some?
    ensures Lost(Run(actions), m) <==> EverAcked(actions, m) && !EverPublished(actions, m)
    ensures Lost(Run(actions), m) ==> m in Run(actions).skipped
  {
    EveryRunIsSafe(actions);
    HistoryIsState(actions, m);
    assert MessageSafe(Run(actions), m);
  }

  // ------------------------------------------------------------------ whose result it is

  predicate DistinctIds(s: State) {
    forall i, j :: 0 <= i < j < |s.stream| && s.stream[i].Some? && s.stream[j].Some? ==>
      s.stream[i].value.id != s.stream[j].value.id
  }

  /** Every result on a list came from running a submitted job of that id; if ids are distinct, as
      minted ones are, from the very job. */
  lemma {:induction false} ResultsAreTheJobsOwn(actions: seq<Action>, m: nat, k: nat)
    requires var s := Run(actions);
             m < |s.stream| && s.stream[m].Some? && k < |Queued(s, s.stream[m].value.id)|
    ensures var s := Run(actions);
            var id := s.stream[m].value.id;
            && Ours(s, id, Queued(s, id)[k])
            && (DistinctIds(s) ==> Queued(s, id)[k].spec == s.stream[m].value.spec)
  {
    var s := Run(actions);
    var id := s.stream[m].value.id;
    EveryRunIsSafe(actions);
    assert ListSafe(s, id);
    if DistinctIds(s) {
      NamesakeIsItself(s, m, Queued(s, id)[k]);
    }
  }

  lemma NamesakeIsItself(s: State, m: nat, r: Result)
    requires DistinctIds(s) && m < |s.stream| && s.stream[m].Some? && Ours(s, s.stream[m].value.id, r)
    ensures r.spec == s.stream[m].value.spec
  {
    var n :| n in s.published && n < |s.stream| && s.stream[n] == Some(Job(s.stream[m].value.id, r.spec));
    assert n == m;
  }

  /** What Submit returns came from running what was submitted. */
  lemma {:induction false} SubmitAnswersItsOwnJob(actions: seq<Action>, c: Client)
    requires DistinctIds(Run(actions)) && c in Run(actions).answers
    ensures var s := Run(actions); c in s.asked && s.answers[c].spec == s.asked[c].spec
  {
    var s := Run(actions);
    EveryRunIsSafe(actions);
    assert ClientSafe(s, c);
    var m :| 0 <= m < |s.stream| && s.stream[m] == Some(s.asked[c]);
    NamesakeIsItself(s, m, s.answers[c]);
  }

  // ------------------------------------------------------------------ reclaim

  // The stream and the submitters are as they were.
  predicate SameClients(s: State, s': State) {
    s'.stream == s.stream && s'.asked == s.asked && s'.waiting == s.waiting
  }

  // A fresh thread claims the message, runs it, publishes or fails to, and acknowledges.
  function Rerun(m: nat, t: Thread, outcome: nat, ok: bool): seq<Action> {
    [] + [Claim(t, [m])] + [Process(t, outcome)] + [Publish(t, ok)] + [Ack(t, true)]
  }

  /** Whatever has died, a pending job can still be claimed, run, published and acknowledged; but if
      that publish fails and no other attempt got through, the job is lost. */
  lemma {:induction false} PendingJobsCanFinish(actions: seq<Action>, m: nat, t: Thread, outcome: nat, ok: bool)
    requires m in Run(actions).pending && t !in Run(actions).threads
    requires m < |Run(actions).stream| && Run(actions).stream[m].Some?
    ensures var s, s' := Run(actions), Run(actions + Rerun(m, t, outcome, ok));
            var job := s.stream[m].value;
            && m !in s'.pending
            && (m in s'.published <==> ok || m in s.published)
            && Queued(s', job.id) == Queued(s, job.id) + (if ok then [Result(job.spec, outcome)] else [])
            && (Lost(s', m) <==> !ok && m !in s.published)
            && SameClients(s, s')
  {
    EveryRunIsSafe(actions);
    var a1 := actions + [Claim(t, [m])];
    var a2 := a1 + [Process(t, outcome)];
    var a3 := a2 + [Publish(t, ok)];
    OneMore(actions, Claim(t, [m]));
    OneMore(a1, Process(t, outcome));
    ClaimAndRun(Run(actions), m, t, outcome);
    OneMore(a2, Publish(t, ok));
    OneMore(a3, Ack(t, true));
    PublishAndAck(Run(a2), m, t, ok);
    assert actions + Rerun(m, t, outcome, ok) == a3 + [Ack(t, true)];
  }

  lemma ClaimAndRun(s: State, m: nat, t: Thread, outcome: nat)
    requires m in s.pending && t !in s.threads && m < |s.stream| && s.stream[m].Some?
    ensures Step(Step(s, Claim(t, [m])), Process(t, outcome))
         == s.(threads := s.threads[t := Ran(m, Result(s.stream[m].value.spec, outcome), [])])
  {
    var s1 := Step(s, Claim(t, [m]));
    assert s1 == s.(threads := s.threads[t := Idle([m])]) && [m][1..] == [];
    assert s1.threads[t := Ran(m, Result(s.stream[m].value.spec, outcome), [])]
        == s.threads[t := Ran(m, Result(s.stream[m].value.spec, outcome), [])];
  }

  lemma PublishAndAck(s: State, m: nat, t: Thread, ok: bool)
    requires t in s.threads && s.threads[t].Ran? && s.threads[t].msg == m && m < |s.stream| && s.stream[m].Some?
    ensures var s' := Step(Step(s, Publish(t, ok)), Ack(t, true));
            var id := s.stream[m].value.id;
            && s'.pending == s.pending - {m} && s'.stream == s.stream && s'.delivered == s.delivered
            && s'.published == (if ok then s.published + {m} else s.published) && SameClients(s, s')
            && Queued(s', id) == Queued(s, id) + (if ok then [s.threads[t].result] else [])
  {
    var s1 := Step(s, Publish(t, ok));
    assert s1.threads[t] == Acking(m, s.threads[t].batch);
  }

  lemma OneMore(actions: seq<Action>, a: Action)
    ensures Run(actions + [a]) == Step(Run(actions), a)
  {
    assert (actions + [a])[..|actions|] == actions;
  }

  // ------------------------------------------------------------------ every job can be answered

  ghost predicate CanReach(actions: seq<Action>, m: nat) {
    exists more :: m in Run(actions + more).pending && SameClients(Run(actions), Run(actions + more))
  }

  // Delivering one message after the other, each to a new worker, reaches any message.
  lemma {:induction false} CanBeDelivered(actions: seq<Action>, m: nat)
    requires Run(actions).delivered <= m < |Run(actions).stream|
    ensures CanReach(actions, m)
    decreases m - Run(actions).delivered
  {
    var s := Run(actions);
    var t := Sums.Beyond(s.threads.Keys);
    var next := actions + [Deliver(t)];
    OneMore(actions, Deliver(t));
    assert SameClients(s, Run(next)) && s.delivered in Run(next).pending;
    if m == s.delivered {
      assert m in Run(actions + [Deliver(t)]).pending;
    } else {
      CanBeDelivered(next, m);
      var more :| m in Run(next + more).pending && SameClients(Run(next), Run(next + more));
      assert next + more == actions + ([Deliver(t)] + more);
    }
  }

  lemma {:induction false} CanBePending(actions: seq<Action>, m: nat)
    requires m < |Run(actions).stream| && Pending(Run(actions), m)
    ensures CanReach(actions, m)
  {
    if m in Run(actions).pending {
      assert actions + [] == actions;
      assert m in Run(actions + []).pending;
    } else {
      CanBeDelivered(actions, m);
    }
  }

  lemma {:induction false} PopAnswers(actions: seq<Action>, c: Client)
    requires var s := Run(actions); c in s.waiting && c in s.asked && Queued(s, s.asked[c].id) != []
    ensures var s, t := Run(actions), Run(actions + [Pop(c)]);
            c in t.answers && t.answers[c] == Queued(s, s.asked[c].id)[0] && c !in t.waiting
  {
    OneMore(actions, Pop(c));
  }

  /** While its job has not been acknowledged, a waiting Submit can still be answered: whatever has
      died, some continuation delivers or reclaims the job, runs it, publishes and pops a result. */
  lemma {:induction false} WaitingCanBeAnswered(actions: seq<Action>, c: Client, m: nat)
    requires var s := Run(actions);
             c in s.waiting && c in s.asked && m < |s.stream| && s.stream[m] == Some(s.asked[c]) && Pending(s, m)
    ensures exists more :: c in Run(actions + more).answers
  {
    CanBePending(actions, m);
    var more :| m in Run(actions + more).pending && SameClients(Run(actions), Run(actions + more));
    var reached := actions + more;
    var t := Sums.Beyond(Run(reached).threads.Keys);
    PendingJobsCanFinish(reached, m, t, 0, true);
    var done := reached + Rerun(m, t, 0, true);
    PopAnswers(done, c);
    assert done + [Pop(c)] == actions + (more + Rerun(m, t, 0, true) + [Pop(c)]);
  }

  /** A Submit's job is in the stream from the start, and not acknowledged. */
  lemma {:induction false} SubmitEnqueues(actions: seq<Action>, c: Client, job: Job)
    requires c !in Run(actions).asked
    ensures var s, t := Run(actions), Run(actions + [Submit(c, job)]);
            && t.stream == s.stream + [Some(job)] && c in t.waiting && c in t.asked && t.asked[c] == job
            && Pending(t, |s.stream|)
  {
    EveryRunIsSafe(actions);
    OneMore(actions, Submit(c, job));
  }

  /** A message that does not decode is acknowledged and answered to nobody, so it does not come back. */
  lemma {:induction false} PoisonIsAcknowledged(s: State, m: nat, t: Thread)
    requires m in s.pending && t !in s.threads && m < |s.stream| && s.stream[m].None?
    ensures var s' := Step(Step(Step(s, Claim(t, [m])), Process(t, 0)), Ack(t, true));
            m !in s'.pending && s'.lists == s.lists && s'.published == s.published
  {
    var s1 := Step(s, Claim(t, [m]));
    assert s1 == s.(threads := s.threads[t := Idle([m])]);
    var s2 := Step(s1, Process(t, 0));
    assert s2.threads[t] == Acking(m, [m][1..]);
  }

  /** A thread works through its batch: a message that is done with, published or not, is followed by
      the next one. */
  lemma {:induction false} BatchMovesOn(s: State, t: Thread, ok: bool)
    requires Begins(s, t)
    ensures var batch := s.threads[t].batch;
            var ran := Step(s, Process(t, 0));
            var acking := if s.stream[batch[0]].Some? then Step(ran, Publish(t, ok)) else ran;
            var done := Step(acking, Ack(t, true));
            t in done.threads && done.threads[t] == Idle(batch[1..]) && batch[0] !in done.pending
  {
    var batch := s.threads[t].batch;
    var ran := Step(s, Process(t, 0));
    assert ran == s.(threads := s.threads[t := Attempt(s, batch, 0)]);
  }

  predicate Bounded(s: State, t: Thread) {
    t in s.threads ==> |s.threads[t].batch| <= 16
  }

  lemma {:induction false} BoundedStep(s: State, a: Action, t: Thread)
    requires Bounded(s, t)
    ensures Bounded(Step(s, a), t)
  {
    match a {
      case Deliver(_) =>
      case Claim(_, _) =>
      case Process(_, _) =>
      case Panic(_) =>
      case Publish(_, _) =>
      case Ack(_, _) =>
      case Die(_) =>
      case _ =>
    }
  }

  /** Nobody holds more than the 16 messages one claim returns. */
  lemma {:induction false} BatchesAreBounded(actions: seq<Action>, t: Thread)
    ensures Bounded(Run(actions), t)
    decreases |actions|
  {
    if actions != [] {
      BatchesAreBounded(actions[..|actions| - 1], t);
      BoundedStep(Run(actions[..|actions| - 1]), actions[|actions| - 1], t);
    }
  }

  /** A run that panics sends its ack all the same: unless another attempt got through, the job is lost. */
  lemma {:induction false} PanicAcknowledges(actions: seq<Action>, t: Thread)
    requires var s := Run(actions); Begins(s, t) && s.stream[s.threads[t].batch[0]].Some?
    ensures var s := Run(actions);
            var m := s.threads[t].batch[0];
            var s' := Run(actions + [Panic(t)] + [Ack(t, true)]);
            m !in s'.pending && s'.published == s.published && (Lost(s', m) <==> m !in s.published)
  {
    var s := Run(actions);
    EveryRunIsSafe(actions);
    assert ThreadSafe(s, t);
    OneMore(actions, Panic(t));
    assert Run(actions + [Panic(t)]).threads[t] == Acking(s.threads[t].batch[0], []);
    OneMore(actions + [Panic(t)], Ack(t, true));
  }

  /** A Submit that gives up waits no longer, and an expired list answers nobody. */
  lemma {:induction false} GivingUp(s: State, c: Client, id: JobId)
    ensures c !in Step(s, GiveUp(c)).waiting && Step(s, GiveUp(c)).answers == s.answers
    ensures Queued(Step(s, Expire(id)), id) == []
  {
  }
}
