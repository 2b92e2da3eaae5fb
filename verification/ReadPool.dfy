/**
 * The import gate's verification reads: a pool of workers that share a read counter, a generator
 * state and a failure count. Each step is a stretch between two awaits of one worker.
 */
module ReadPool {
  import opened Generator
  import opened Text

  const SEED: int := 0x6d2b79f5

  /** A worker is about to take a read, waiting for one, or returned. */
  datatype Worker = Ready | Fetching(read: nat, ordinal: int) | Returned

  datatype Plan = Plan(total: nat, documents: nat)

  /**
   * The shared variables, the workers, and what happened so far: the generator state behind each
   * issued read, and how each settled read ended.
   */
  datatype Pool = Pool(
    nextRead: nat,
    state: int,
    failures: nat,
    workers: seq<Worker>,
    issued: seq<(nat, int)>,
    settled: map<nat, bool>)

  datatype Event = Take(worker: nat) | Settle(worker: nat, ok: bool)

  function Start(workers: nat): Pool {
    Pool(0, SEED, 0, seq(workers, _ => Ready), [], map[])
  }

  predicate Enabled(p: Pool, e: Event) {
    e.worker < |p.workers| &&
    match e
    case Take(w) => p.workers[w].Ready?
    case Settle(w, _) => p.workers[w].Fetching?
  }

  function Next(p: Pool, plan: Plan, e: Event): Pool
    requires Enabled(p, e) && plan.documents > 0
  {
    match e
    case Take(w) =>
      var read := p.nextRead;
      if read >= plan.total then p.(nextRead := read + 1, workers := p.workers[w := Returned])
      else
        var state := Step(p.state);
        p.(nextRead := read + 1, state := state, issued := p.issued + [(read, state)],
           workers := p.workers[w := Fetching(read, state % plan.documents)])
    case Settle(w, ok) =>
      p.(failures := p.failures + (if ok then 0 else 1),
         settled := p.settled[p.workers[w].read := ok],
         workers := p.workers[w := Ready])
  }

  /** A run of the pool: every event is enabled when it happens. */
  ghost predicate Run(p: Pool, plan: Plan, events: seq<Event>, q: Pool)
    requires plan.documents > 0
    decreases |events|
  {
    if events == [] then p == q
    else Enabled(p, events[0]) && Run(Next(p, plan, events[0]), plan, events[1..], q)
  }

  // ----- what every interleaving keeps -----

  ghost function Failed(settled: map<nat, bool>): set<nat> {
    set r | r in settled && !settled[r]
  }

  ghost predicate InFlight(p: Pool, read: nat) {
    exists w :: 0 <= w < |p.workers| && p.workers[w].Fetching? && p.workers[w].read == read
  }

  /** Reads are issued in order, the k-th with the k-th generator state. */
  ghost predicate IssuedInOrder(p: Pool, plan: Plan) {
    && |p.issued| == (if p.nextRead <= plan.total then p.nextRead else plan.total)
    && p.state == Iterate(SEED, |p.issued|)
    && forall k :: 0 <= k < |p.issued| ==> p.issued[k] == (k, Iterate(SEED, k + 1))
  }

  /** Every worker that fetches holds a read of its own, not yet settled. */
  ghost predicate FetchesOwnRead(p: Pool, plan: Plan)
    requires plan.documents > 0
  {
    && (forall w :: 0 <= w < |p.workers| && p.workers[w].Fetching? ==>
         && p.workers[w].read < |p.issued| && p.workers[w].read !in p.settled
         && p.workers[w].ordinal == p.issued[p.workers[w].read].1 % plan.documents)
    && (forall v, w :: 0 <= v < w < |p.workers| && p.workers[v].Fetching? && p.workers[w].Fetching?
         ==> p.workers[v].read != p.workers[w].read)
  }

  ghost predicate Invariant(p: Pool, plan: Plan)
    requires plan.documents > 0
  {
    && IssuedInOrder(p, plan)
    && FetchesOwnRead(p, plan)
    && (forall r :: r in p.settled ==> r < |p.issued|)
    && (forall r :: 0 <= r < |p.issued| ==> r in p.settled || InFlight(p, r))
    && p.failures == |Failed(p.settled)|
    && (forall w :: 0 <= w < |p.workers| && p.workers[w].Returned? ==> p.nextRead > plan.total)
  }

  lemma TakeKeepsInvariant(p: Pool, plan: Plan, w: nat)
    requires plan.documents > 0 && Invariant(p, plan) && Enabled(p, Event.Take(w))
    ensures Invariant(Next(p, plan, Event.Take(w)), plan)
  {
    var q := Next(p, plan, Event.Take(w));
    forall r | 0 <= r < |q.issued|
      ensures r in q.settled || InFlight(q, r)
    {
      if r < |p.issued| && r !in p.settled {
        assert InFlight(p, r);
        var v :| 0 <= v < |p.workers| && p.workers[v].Fetching? && p.workers[v].read == r;
        assert q.workers[v] == p.workers[v];
      } else if r == |p.issued| {
        assert q.workers[w].Fetching? && q.workers[w].read == r;
      }
    }
  }

  lemma SettleKeepsInvariant(p: Pool, plan: Plan, w: nat, ok: bool)
    requires plan.documents > 0 && Invariant(p, plan) && Enabled(p, Event.Settle(w, ok))
    ensures Invariant(Next(p, plan, Event.Settle(w, ok)), plan)
  {
    var q := Next(p, plan, Event.Settle(w, ok));
    var read := p.workers[w].read;
    assert Failed(q.settled) == Failed(p.settled) + (if ok then {} else {read});
    forall r | 0 <= r < |q.issued|
      ensures r in q.settled || InFlight(q, r)
    {
      if r != read && r !in p.settled {
        assert InFlight(p, r);
        var v :| 0 <= v < |p.workers| && p.workers[v].Fetching? && p.workers[v].read == r;
        assert q.workers[v] == p.workers[v];
      }
    }
  }

  lemma {:induction false} RunKeepsInvariant(p: Pool, plan: Plan, events: seq<Event>, q: Pool)
    requires plan.documents > 0 && Invariant(p, plan) && Run(p, plan, events, q)
    ensures Invariant(q, plan) && |q.workers| == |p.workers|
    decreases |events|
  {
    if events != [] {
      match events[0] {
        case Take(w) => TakeKeepsInvariant(p, plan, w);
        case Settle(w, ok) => SettleKeepsInvariant(p, plan, w, ok);
      }
      RunKeepsInvariant(Next(p, plan, events[0]), plan, events[1..], q);
    }
  }

  lemma StartInvariant(workers: nat, plan: Plan)
    requires plan.documents > 0
    ensures Invariant(Start(workers), plan)
  {
    assert Failed(map[]) == {};
  }

  /** All workers returned, so `Promise.all` resolves and the failure count is the result. */
  ghost predicate Finished(p: Pool) {
    p.workers != [] && forall w :: 0 <= w < |p.workers| ==> p.workers[w].Returned?
  }

  /**
   * Whatever the interleaving, a finished pool issued each read index below the total exactly once,
   * the k-th with the k-th generator state, saw every one of them settle, and counted exactly the
   * failed ones.
   */
  lemma FinishedRun(workers: nat, plan: Plan, events: seq<Event>, q: Pool)
    requires plan.documents > 0 && Run(Start(workers), plan, events, q) && Finished(q)
    ensures |q.issued| == plan.total
    ensures forall k :: 0 <= k < plan.total ==> q.issued[k] == (k, Iterate(SEED, k + 1))
    ensures forall k: nat :: k in q.settled <==> k < plan.total
    ensures q.failures == |set k | 0 <= k < plan.total && !q.settled[k]|
  {
    StartInvariant(workers, plan);
    RunKeepsInvariant(Start(workers), plan, events, q);
    assert q.workers[0].Returned?;
    forall k: nat | k < plan.total
      ensures k in q.settled
    {
      assert k in q.settled || InFlight(q, k);
    }
    assert Failed(q.settled) == set k | 0 <= k < plan.total && !q.settled[k];
  }

  /** Up to 2^32 reads use pairwise different generator states. */
  lemma ReadsUseDistinctStates(p: Pool, plan: Plan, i: nat, j: nat)
    requires plan.documents > 0 && Invariant(p, plan) && plan.total <= MODULUS
    requires i < j < |p.issued|
    ensures p.issued[i].1 != p.issued[j].1
  {
    NoEarlyRepeat(SEED, i + 1, j + 1);
  }

  // ----- the workers -----

  /** The pool as the gate holds it, one method for each stretch between awaits. */
  class Workers {
    var nextRead: nat
    var state: int
    var failures: nat
    var workers: seq<Worker>
    ghost var issued: seq<(nat, int)>
    ghost var settled: map<nat, bool>
    const plan: Plan

    constructor (count: nat, plan: Plan)
      requires plan.documents > 0
      ensures Valid() && this.plan == plan && |workers| == count && settled == map[]
      ensures Work(State(), plan) == 2 * plan.total + count
    {
      nextRead, state, failures := 0, SEED, 0;
      workers := seq(count, _ => Ready);
      issued, settled := [], map[];
      this.plan := plan;
      new;
      StartInvariant(count, plan);
      StartWeight(count);
    }

    ghost function State(): Pool
      reads this
    {
      Pool(nextRead, state, failures, workers, issued, settled)
    }

    ghost predicate Valid()
      reads this
    {
      plan.documents > 0 && Invariant(State(), plan)
    }

    /** A ready worker takes the next read, the k-th with the k-th generator state, or returns. */
    method Take(w: nat)
      requires Valid() && w < |workers| && workers[w].Ready?
      modifies this
      ensures Valid() && failures == old(failures) && settled == old(settled) && |workers| == old(|workers|)
      ensures old(nextRead) < plan.total ==>
        var read := old(nextRead); workers[w] == Fetching(read, Iterate(SEED, read + 1) % plan.documents)
      ensures old(nextRead) >= plan.total ==> workers[w].Returned?
      ensures Work(State(), plan) < old(Work(State(), plan))
    {
      TakeKeepsInvariant(State(), plan, w);
      TakeWorks(State(), plan, w);
      var read := nextRead;
      nextRead := nextRead + 1;
      if read >= plan.total {
        workers := workers[w := Returned];
        return;
      }
      state := Step(state);
      issued := issued + [(read, state)];
      var ordinal := state % plan.documents;
      workers := workers[w := Fetching(read, ordinal)];
    }

    /** A read settles once; the failure count is the number of reads that failed so far. */
    method Settle(w: nat, ok: bool)
      requires Valid() && w < |workers| && workers[w].Fetching?
      modifies this
      ensures Valid() && workers == old(workers)[w := Ready]
      ensures var read := old(workers[w]).read;
        read < plan.total && read !in old(settled) && settled == old(settled)[read := ok]
      ensures failures == |Failed(settled)|
      ensures Work(State(), plan) < old(Work(State(), plan))
    {
      SettleKeepsInvariant(State(), plan, w, ok);
      SettleWorks(State(), plan, w, ok);
      if !ok {
        failures := failures + 1;
      }
      settled := settled[workers[w].read := ok];
      workers := workers[w := Ready];
    }
  }

  // ----- every schedule finishes -----

  function Weight(w: Worker): nat {
    match w
    case Ready => 1
    case Fetching(_, _) => 2
    case Returned => 0
  }

  function Weights(workers: seq<Worker>): nat {
    if workers == [] then 0 else Weight(workers[0]) + Weights(workers[1..])
  }

  /** What is left to do: it falls with every event. */
  function Work(p: Pool, plan: Plan): nat {
    (if p.nextRead < plan.total then 2 * (plan.total - p.nextRead) else 0) + Weights(p.workers)
  }

  lemma {:induction false} WeightsChange(workers: seq<Worker>, w: nat, next: Worker)
    requires w < |workers|
    ensures Weights(workers[w := next]) == Weights(workers) - Weight(workers[w]) + Weight(next)
    decreases w
  {
    if w == 0 {
      assert workers[0 := next][1..] == workers[1..];
    } else {
      assert workers[w := next][1..] == workers[1..][w - 1 := next];
      WeightsChange(workers[1..], w - 1, next);
    }
  }

  lemma {:induction false} StartWeight(count: nat)
    ensures Weights(seq(count, _ => Ready)) == count
  {
    if count > 0 {
      var all := seq(count, _ => Ready);
      assert all[1..] == seq(count - 1, _ => Ready);
      StartWeight(count - 1);
    }
  }

  lemma TakeWorks(p: Pool, plan: Plan, w: nat)
    requires plan.documents > 0 && Enabled(p, Event.Take(w))
    ensures Work(Next(p, plan, Event.Take(w)), plan) < Work(p, plan)
  {
    WeightsChange(p.workers, w, Next(p, plan, Event.Take(w)).workers[w]);
  }

  lemma SettleWorks(p: Pool, plan: Plan, w: nat, ok: bool)
    requires plan.documents > 0 && Enabled(p, Event.Settle(w, ok))
    ensures Work(Next(p, plan, Event.Settle(w, ok)), plan) < Work(p, plan)
  {
    WeightsChange(p.workers, w, Ready);
  }

  /** The first worker from `from` on that has not returned, going round. */
  method FindBusy(workers: seq<Worker>, from: nat) returns (w: Option<nat>)
    ensures w.Some? ==> 0 <= w.value < |workers| && !workers[w.value].Returned?
    ensures w.None? <==> forall v :: 0 <= v < |workers| ==> workers[v].Returned?
  {
    if workers == [] {
      return None;
    }
    var start := from % |workers|;
    if !workers[start].Returned? {
      return Some(start);
    }
    for v := 0 to |workers|
      invariant forall u :: 0 <= u < v ==> workers[u].Returned?
    {
      if !workers[v].Returned? {
        return Some(v);
      }
    }
    w := None;
  }

  lemma AllSettled(p: Pool, plan: Plan, ok: nat -> bool)
    requires plan.documents > 0 && Invariant(p, plan) && Finished(p)
    requires forall r :: r in p.settled ==> p.settled[r] == ok(r)
    ensures p.failures == |set k | 0 <= k < plan.total && !ok(k)|
  {
    assert p.workers[0].Returned?;
    forall k: nat | k < plan.total
      ensures k in p.settled
    {
      assert k in p.settled || InFlight(p, k);
    }
    assert Failed(p.settled) == set k | 0 <= k < plan.total && !ok(k);
  }

  /**
   * `verifyRandomReads` under any scheduler: `pick` names the worker that moves next and `ok` tells
   * how each read ends. Every schedule finishes and returns exactly the number of failed reads.
   */
  method VerifyRandomReads(count: nat, plan: Plan, pick: nat -> nat, ok: nat -> bool) returns (failures: nat)
    requires plan.documents > 0 && count > 0
    ensures failures == |set k | 0 <= k < plan.total && !ok(k)|
  {
    var pool := new Workers(count, plan);
    var turn := 0;
    var w := FindBusy(pool.workers, pick(turn));
    while w.Some?
      invariant pool.Valid() && pool.plan == plan && |pool.workers| == count
      invariant forall r :: r in pool.settled ==> pool.settled[r] == ok(r)
      invariant w.Some? ==> 0 <= w.value < |pool.workers| && !pool.workers[w.value].Returned?
      invariant w.None? ==> forall v :: 0 <= v < |pool.workers| ==> pool.workers[v].Returned?
      decreases Work(pool.State(), plan), w.Some?
    {
      if pool.workers[w.value].Ready? {
        pool.Take(w.value);
      } else {
        pool.Settle(w.value, ok(pool.workers[w.value].read));
      }
      turn := turn + 1;
      w := FindBusy(pool.workers, pick(turn));
    }
    AllSettled(pool.State(), plan, ok);
    failures := pool.failures;
  }
}
