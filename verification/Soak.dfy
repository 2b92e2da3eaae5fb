/**
 * The soak workload: a scheduling loop with a concurrency limit, per-slot chains of listener
 * writes, and the counters the verdict rests on. Each event is a stretch between two awaits.
 */
module Soak {
  import opened Text

  datatype Schedule = Schedule(modulus: nat, remainder: nat)

  datatype Manifest = Manifest(
    total: nat,
    limit: nat,
    start: real,
    interval: real,
    deadline: real,
    listener: Schedule,
    large: Schedule,
    transaction: Schedule,
    hot: nat,
    active: nat,
    small: nat,
    largeCount: nat,
    listenerIndexes: seq<nat>)

  /** Moduli and counts are positive, and the listener documents are distinct low ordinals. */
  predicate WellFormed(m: Manifest) {
    && m.listener.modulus > 0 && m.large.modulus > 0 && m.transaction.modulus > 0
    && m.limit > 0 && m.hot > 0 && m.active > 0 && m.largeCount > 0
    && m.active + m.hot < m.small
    && |m.listenerIndexes| == m.active
    && (forall k :: 0 <= k < m.active ==> m.listenerIndexes[k] < m.active)
    && (forall k, l :: 0 <= k < l < m.active ==> m.listenerIndexes[k] != m.listenerIndexes[l])
  }

  // ----- which document an operation writes -----

  datatype Class = Listener | Large | Transaction | Ordinary

  function ClassOf(m: Manifest, index: nat): Class
    requires WellFormed(m)
  {
    if index % m.listener.modulus == m.listener.remainder then Listener
    else if index % m.large.modulus == m.large.remainder then Large
    else if index % m.transaction.modulus == m.transaction.remainder then Transaction
    else Ordinary
  }

  function Slot(m: Manifest, index: nat): (s: nat)
    requires WellFormed(m)
    ensures s < m.active
  {
    (index / m.listener.modulus) % m.active
  }

  function Ordinal(m: Manifest, index: nat): nat
    requires WellFormed(m)
  {
    match ClassOf(m, index)
    case Listener => m.listenerIndexes[Slot(m, index)]
    case Large => m.small + (index / m.large.modulus) % m.largeCount
    case Transaction => m.active + (index / m.transaction.modulus) % m.hot
    case Ordinary => m.active + m.hot + (index * 48271) % (m.small - (m.active + m.hot))
  }

  lemma QuotientOf(k: nat, m: nat, r: nat)
    requires r < m
    ensures (k * m + r) / m == k && (k * m + r) % m == r
  {
    var x := k * m + r;
    assert x == (x / m) * m + x % m;
    SameQuotient(x / m, k, m, x % m, r);
  }

  lemma {:induction false} MultiplesApart(a: nat, b: nat, m: nat)
    requires a < b
    ensures a * m + m <= b * m
    decreases b
  {
    assert b * m == (b - 1) * m + m;
    if a + 1 < b {
      MultiplesApart(a, b - 1, m);
    }
  }

  lemma SameQuotient(a: nat, b: nat, m: nat, x: nat, y: nat)
    requires x < m && y < m && a * m + x == b * m + y
    ensures a == b && x == y
  {
    if a < b {
      MultiplesApart(a, b, m);
      assert false;
    } else if b < a {
      MultiplesApart(b, a, m);
      assert false;
    }
  }

  /** The k-th listener operation writes the document of slot `k` modulo the number of listeners. */
  lemma ListenersTakeTurns(m: Manifest, k: nat)
    requires WellFormed(m) && m.listener.remainder < m.listener.modulus
    ensures var i := k * m.listener.modulus + m.listener.remainder;
      ClassOf(m, i) == Listener && Slot(m, i) == k % m.active && Ordinal(m, i) == m.listenerIndexes[k % m.active]
  {
    QuotientOf(k, m.listener.modulus, m.listener.remainder);
  }

  /** As many consecutive listener operations as there are listeners visit each slot once. */
  lemma EveryListenerHasItsTurn(m: Manifest, k: nat, s: nat) returns (j: nat)
    requires WellFormed(m) && m.listener.remainder < m.listener.modulus && s < m.active
    ensures k <= j < k + m.active && Slot(m, j * m.listener.modulus + m.listener.remainder) == s
    ensures forall l: nat :: k <= l < k + m.active && l % m.active == s ==> l == j
  {
    var n := m.active;
    var q, r := k / n, k % n;
    j := if r <= s then q * n + s else (q + 1) * n + s;
    assert k == q * n + r && (q + 1) * n == q * n + n;
    QuotientOf(if r <= s then q else q + 1, n, s);
    ListenersTakeTurns(m, j);
    forall l: nat | k <= l < k + n && l % n == s
      ensures l == j
    {
      OneTurn(l, j, n);
    }
  }

  lemma OneTurn(a: nat, b: nat, n: nat)
    requires n > 0 && a % n == b % n && a < b + n && b < a + n
    ensures a == b
  {
    assert a == (a / n) * n + a % n && b == (b / n) * n + b % n;
    var x, y := a / n, b / n;
    if x < y {
      MultiplesApart(x, y, n);
      assert false;
    } else if y < x {
      MultiplesApart(y, x, n);
      assert false;
    }
  }

  /** The k-th large and the k-th transaction operation, where no earlier rule takes the index. */
  lemma OtherDocumentsTakeTurns(m: Manifest, k: nat)
    requires WellFormed(m) && m.large.remainder < m.large.modulus && m.transaction.remainder < m.transaction.modulus
    ensures var i := k * m.large.modulus + m.large.remainder;
      i % m.listener.modulus != m.listener.remainder ==>
        ClassOf(m, i) == Large && Ordinal(m, i) == m.small + k % m.largeCount
    ensures var i := k * m.transaction.modulus + m.transaction.remainder;
      i % m.listener.modulus != m.listener.remainder && i % m.large.modulus != m.large.remainder ==>
        ClassOf(m, i) == Transaction && Ordinal(m, i) == m.active + k % m.hot
  {
    QuotientOf(k, m.large.modulus, m.large.remainder);
    QuotientOf(k, m.transaction.modulus, m.transaction.remainder);
  }

  function DocumentId(ordinal: nat): string {
    "document-" + Padded(ordinal, 6)
  }

  lemma DocumentIdInjective(a: nat, b: nat)
    requires DocumentId(a) == DocumentId(b)
    ensures a == b
  {
    Cancel("document-", Padded(a, 6), "document-", Padded(b, 6));
    PaddedInjective(a, b, 6);
  }

  /** Each class owns a range of ordinals. */
  lemma OrdinalRange(m: Manifest, index: nat)
    requires WellFormed(m)
    ensures match ClassOf(m, index)
      case Listener => Ordinal(m, index) < m.active
      case Transaction => m.active <= Ordinal(m, index) < m.active + m.hot
      case Ordinary => m.active + m.hot <= Ordinal(m, index) < m.small
      case Large => m.small <= Ordinal(m, index) < m.small + m.largeCount
  {
  }

  /** Operations of different classes, and listener writes of different slots, never share a document. */
  lemma ClassesWriteDisjointDocuments(m: Manifest, i: nat, j: nat)
    requires WellFormed(m)
    requires ClassOf(m, i) != ClassOf(m, j) || (ClassOf(m, i) == Listener && Slot(m, i) != Slot(m, j))
    ensures DocumentId(Ordinal(m, i)) != DocumentId(Ordinal(m, j))
  {
    OrdinalRange(m, i);
    OrdinalRange(m, j);
    assert Ordinal(m, i) != Ordinal(m, j);
    if DocumentId(Ordinal(m, i)) == DocumentId(Ordinal(m, j)) {
      DocumentIdInjective(Ordinal(m, i), Ordinal(m, j));
    }
  }

  // ----- the run -----

  /** Where the scheduling loop stands; a race is over the operations in flight when it began. */
  datatype Phase = Head | Delaying | Racing(raced: set<nat>) | Ended

  datatype Run = Run(
    index: nat,
    phase: Phase,
    scheduled: nat,
    completed: nat,
    failed: nat,
    failedOperations: nat,
    otherFailures: nat,
    intervalCompleted: nat,
    intervalFailed: nat,
    rolledCompleted: nat,
    rolledFailed: nat,
    inFlight: set<nat>,
    chains: seq<seq<nat>>,
    written: seq<bool>,
    expected: seq<nat>,
    stored: seq<nat>,
    broken: set<nat>)

  datatype Event =
    | Loop(at: real, stop: bool)            // top of the loop; `stop`: the server exited or the slope rule fired
    | Wake(at: real, stop: bool)            // the planned time came
    | Raced(first: real, second: real)      // a raced operation settled and left the set; the clock is read twice
    | Written(slot: nat)                    // the server stored the running write of a slot
    | SettleListener(slot: nat, ok: bool)   // the running write of a slot settled
    | Settle(operation: nat, ok: bool)      // any other operation settled
    | OtherFailure                          // a listener or a memory sample failed
    | Rollup                                // the interval counters are logged and reset

  function Start(m: Manifest): Run
    requires WellFormed(m)
  {
    Run(0, Head, 0, 0, 0, 0, 0, 0, 0, 0, 0, {}, seq(m.active, _ => []), seq(m.active, _ => false),
        seq(m.active, _ => 0), seq(m.active, _ => 0), {})
  }

  predicate Shaped(r: Run, m: Manifest) {
    |r.chains| == m.active && |r.written| == m.active && |r.expected| == m.active && |r.stored| == m.active
  }

  predicate Enabled(r: Run, m: Manifest, e: Event)
    requires WellFormed(m)
  {
    Shaped(r, m) &&
    match e
    case Loop(_, _) => r.phase.Head?
    case Wake(_, _) => r.phase.Delaying?
    case Raced(_, _) => r.phase.Racing? && !(r.phase.raced <= r.inFlight)
    case Written(s) => s < m.active && r.chains[s] != []
    case SettleListener(s, ok) => s < m.active && r.chains[s] != [] && (ok ==> r.written[s])
    case Settle(i, _) => i in r.inFlight && !ClassOf(m, i).Listener?
    case OtherFailure => true
    case Rollup => true
  }

  /** When operation `i` is due. */
  function PlannedAt(m: Manifest, i: nat): real {
    m.start + i as real * m.interval
  }

  /** Starts operation `index`: a listener write joins its slot's chain. */
  function Begin(r: Run, m: Manifest): Run
    requires WellFormed(m) && Shaped(r, m)
  {
    var i := r.index;
    var s := Slot(m, i);
    r.(index := i + 1, phase := Head, scheduled := r.scheduled + 1, inFlight := r.inFlight + {i},
       chains := if ClassOf(m, i).Listener? then r.chains[s := r.chains[s] + [i]] else r.chains)
  }

  function Finish(r: Run, i: nat, ok: bool): Run {
    r.(inFlight := r.inFlight - {i},
       completed := r.completed + (if ok then 1 else 0),
       intervalCompleted := r.intervalCompleted + (if ok then 1 else 0),
       failed := r.failed + (if ok then 0 else 1),
       intervalFailed := r.intervalFailed + (if ok then 0 else 1),
       failedOperations := r.failedOperations + (if ok then 0 else 1))
  }

  function Next(r: Run, m: Manifest, e: Event): Run
    requires WellFormed(m) && Enabled(r, m, e)
  {
    match e
    case Loop(at, stop) =>
      if r.index >= m.total || stop || PlannedAt(m, r.index) >= m.deadline || at >= m.deadline
      then r.(phase := Ended)
      else r.(phase := Delaying)
    case Wake(at, stop) =>
      if stop then r.(phase := Ended)
      else if |r.inFlight| >= m.limit then r.(phase := Racing(r.inFlight))
      else if at >= m.deadline then r.(phase := Ended)
      else Begin(r, m)
    case Raced(first, second) =>
      if first < m.deadline && |r.inFlight| >= m.limit then r.(phase := Racing(r.inFlight))
      else if second >= m.deadline then r.(phase := Ended)
      else Begin(r, m)
    case Written(s) =>
      r.(stored := r.stored[s := r.chains[s][0] + 1], written := r.written[s := true])
    case SettleListener(s, ok) =>
      var i := r.chains[s][0];
      var f := Finish(r, i, ok);
      f.(chains := r.chains[s := r.chains[s][1..]], written := r.written[s := false],
         expected := if ok then r.expected[s := i + 1] else r.expected,
         broken := if ok then r.broken else r.broken + {s})
    case Settle(i, ok) => Finish(r, i, ok)
    case OtherFailure =>
      r.(failed := r.failed + 1, intervalFailed := r.intervalFailed + 1, otherFailures := r.otherFailures + 1)
    case Rollup =>
      r.(rolledCompleted := r.rolledCompleted + r.intervalCompleted,
         rolledFailed := r.rolledFailed + r.intervalFailed, intervalCompleted := 0, intervalFailed := 0)
  }

  /** A run: every event is enabled when it happens. The clock may show anything. */
  ghost predicate Path(r: Run, m: Manifest, events: seq<Event>, q: Run)
    requires WellFormed(m)
    decreases |events|
  {
    if events == [] then r == q
    else Enabled(r, m, events[0]) && Path(Next(r, m, events[0]), m, events[1..], q)
  }

  predicate Possible(r: Run, m: Manifest, events: seq<Event>)
    requires WellFormed(m)
    decreases |events|
  {
    events == [] || (Enabled(r, m, events[0]) && Possible(Next(r, m, events[0]), m, events[1..]))
  }

  // ----- what every interleaving keeps -----

  ghost predicate Counts(r: Run) {
    && r.scheduled == r.completed + r.failedOperations + |r.inFlight|
    && r.failed == r.failedOperations + r.otherFailures
    && r.completed == r.rolledCompleted + r.intervalCompleted
    && r.failed == r.rolledFailed + r.intervalFailed
    && r.scheduled == r.index
    && (forall i :: i in r.inFlight ==> i < r.index)
  }

  ghost predicate Increasing(chain: seq<nat>) {
    forall k, l :: 0 <= k < l < |chain| ==> chain[k] < chain[l]
  }

  /** A slot's chain: its own writes in flight, oldest first, all newer than the last finished one. */
  ghost predicate ChainOk(r: Run, m: Manifest, s: nat)
    requires WellFormed(m) && Shaped(r, m) && s < m.active
  {
    var chain := r.chains[s];
    && Increasing(chain)
    && (forall k :: 0 <= k < |chain| ==>
         && chain[k] in r.inFlight && chain[k] < r.index && r.expected[s] <= chain[k]
         && ClassOf(m, chain[k]).Listener? && Slot(m, chain[k]) == s)
    && r.expected[s] <= r.index
    && (chain == [] ==> !r.written[s])
    && (s !in r.broken ==> r.stored[s] == if r.written[s] then chain[0] + 1 else r.expected[s])
  }

  ghost predicate Chains(r: Run, m: Manifest)
    requires WellFormed(m)
  {
    && Shaped(r, m)
    && (forall s :: 0 <= s < m.active ==> ChainOk(r, m, s))
    && (forall i :: i in r.inFlight && ClassOf(m, i).Listener? ==> i in r.chains[Slot(m, i)])
  }

  /** No more operations in flight than the limit, and none that joined while the loop waits for a race. */
  ghost predicate Limited(r: Run, m: Manifest) {
    && |r.inFlight| <= m.limit
    && (r.phase.Racing? ==> r.inFlight <= r.phase.raced && |r.phase.raced| <= m.limit)
  }

  ghost predicate Invariant(r: Run, m: Manifest)
    requires WellFormed(m)
  {
    Counts(r) && Limited(r, m) && Chains(r, m)
  }

  lemma FewerInside(a: set<nat>, b: set<nat>)
    requires a <= b && !(b <= a)
    ensures |a| < |b|
  {
    assert b == a + (b - a);
    assert b - a != {};
  }

  /** The race is won by an operation that left the set, so there is a free place and no second race. */
  lemma RaceFreesPlace(r: Run, m: Manifest, first: real, second: real)
    requires WellFormed(m) && Limited(r, m) && Enabled(r, m, Raced(first, second))
    ensures |r.inFlight| < m.limit && !Next(r, m, Raced(first, second)).phase.Racing?
  {
    FewerInside(r.inFlight, r.phase.raced);
  }

  lemma BeginKeepsCounts(r: Run, m: Manifest)
    requires WellFormed(m) && Shaped(r, m) && Counts(r)
    ensures Counts(Begin(r, m))
  {
    assert r.index !in r.inFlight;
  }

  lemma BeginKeepsChains(r: Run, m: Manifest)
    requires WellFormed(m) && Counts(r) && Chains(r, m)
    ensures Chains(Begin(r, m), m)
  {
    var q := Begin(r, m);
    forall s | 0 <= s < m.active
      ensures ChainOk(q, m, s)
    {
      assert ChainOk(r, m, s);
    }
    forall i | i in q.inFlight && ClassOf(m, i).Listener?
      ensures i in q.chains[Slot(m, i)]
    {
      if i == r.index {
        var chain := r.chains[Slot(m, i)] + [i];
        assert chain[|chain| - 1] == i;
      } else {
        var k :| 0 <= k < |r.chains[Slot(m, i)]| && r.chains[Slot(m, i)][k] == i;
        assert q.chains[Slot(m, i)][k] == i;
      }
    }
  }

  /** Chain facts depend only on these fields. */
  lemma ChainsDepend(r: Run, q: Run, m: Manifest)
    requires WellFormed(m) && Chains(r, m)
    requires q.chains == r.chains && q.written == r.written && q.expected == r.expected && q.stored == r.stored
    requires q.broken == r.broken && q.inFlight == r.inFlight && q.index == r.index
    ensures Chains(q, m)
  {
    forall s | 0 <= s < m.active
      ensures ChainOk(q, m, s)
    {
      assert ChainOk(r, m, s);
    }
  }

  lemma LoopStep(r: Run, m: Manifest, e: Event)
    requires WellFormed(m) && Invariant(r, m) && Enabled(r, m, e)
    requires e.Loop? || e.Wake? || e.Raced?
    ensures Invariant(Next(r, m, e), m)
  {
    var q := Next(r, m, e);
    if e.Raced? {
      RaceFreesPlace(r, m, e.first, e.second);
    }
    if q.index == r.index {
      ChainsDepend(r, q, m);
    } else {
      BeginKeepsInvariant(r, m);
    }
  }

  lemma BeginKeepsInvariant(r: Run, m: Manifest)
    requires WellFormed(m) && Invariant(r, m) && |r.inFlight| < m.limit
    ensures Invariant(Begin(r, m), m)
  {
    assert r.index !in r.inFlight;
    BeginKeepsCounts(r, m);
    BeginKeepsChains(r, m);
  }

  lemma WrittenStep(r: Run, m: Manifest, s: nat)
    requires WellFormed(m) && Invariant(r, m) && Enabled(r, m, Written(s))
    ensures Invariant(Next(r, m, Written(s)), m)
  {
    var q := Next(r, m, Written(s));
    forall t | 0 <= t < m.active
      ensures ChainOk(q, m, t)
    {
      assert ChainOk(r, m, t);
    }
  }

  lemma FinishKeepsCounts(r: Run, i: nat, ok: bool)
    requires Counts(r) && i in r.inFlight
    ensures Counts(Finish(r, i, ok))
  {
  }

  /** A settled write leaves the chains of the other slots alone. */
  lemma SettleListenerChain(r: Run, m: Manifest, s: nat, ok: bool, t: nat)
    requires WellFormed(m) && Chains(r, m) && Enabled(r, m, SettleListener(s, ok)) && t < m.active
    ensures ChainOk(Next(r, m, SettleListener(s, ok)), m, t)
  {
    var q := Next(r, m, SettleListener(s, ok));
    var i := r.chains[s][0];
    assert ChainOk(r, m, s) && ChainOk(r, m, t);
    assert i in r.inFlight && Slot(m, i) == s;
    if t == s {
      var chain := r.chains[s];
      assert forall k :: 0 <= k < |chain[1..]| ==> chain[1..][k] == chain[k + 1];
    }
  }

  lemma SettleListenerStep(r: Run, m: Manifest, s: nat, ok: bool)
    requires WellFormed(m) && Invariant(r, m) && Enabled(r, m, SettleListener(s, ok))
    ensures Invariant(Next(r, m, SettleListener(s, ok)), m)
  {
    var q := Next(r, m, SettleListener(s, ok));
    var i := r.chains[s][0];
    assert ChainOk(r, m, s);
    FinishKeepsCounts(r, i, ok);
    forall t | 0 <= t < m.active
      ensures ChainOk(q, m, t)
    {
      SettleListenerChain(r, m, s, ok, t);
    }
    forall j | j in q.inFlight && ClassOf(m, j).Listener?
      ensures j in q.chains[Slot(m, j)]
    {
      var chain := r.chains[Slot(m, j)];
      var k :| 0 <= k < |chain| && chain[k] == j;
      if Slot(m, j) == s {
        assert q.chains[s][k - 1] == j;
      }
    }
  }

  lemma SettledWrite(r: Run, m: Manifest, s: nat, ok: bool)
    requires WellFormed(m) && Invariant(r, m) && Enabled(r, m, SettleListener(s, ok))
    ensures var q := Next(r, m, SettleListener(s, ok));
      && Invariant(q, m) && |q.inFlight| == |r.inFlight| - 1
      && (ok ==> r.expected[s] < q.expected[s] && (s !in q.broken ==> q.expected[s] == q.stored[s]))
  {
    SettleListenerStep(r, m, s, ok);
    assert ChainOk(r, m, s);
    assert ChainOk(Next(r, m, SettleListener(s, ok)), m, s);
  }

  lemma SettleStep(r: Run, m: Manifest, i: nat, ok: bool)
    requires WellFormed(m) && Invariant(r, m) && Enabled(r, m, Settle(i, ok))
    ensures Invariant(Next(r, m, Settle(i, ok)), m)
  {
    var q := Next(r, m, Settle(i, ok));
    FinishKeepsCounts(r, i, ok);
    forall t | 0 <= t < m.active
      ensures ChainOk(q, m, t)
    {
      assert ChainOk(r, m, t);
    }
  }

  lemma StepInvariant(r: Run, m: Manifest, e: Event)
    requires WellFormed(m) && Invariant(r, m) && Enabled(r, m, e)
    ensures Invariant(Next(r, m, e), m)
  {
    match e {
      case Written(s) => WrittenStep(r, m, s);
      case SettleListener(s, ok) => SettleListenerStep(r, m, s, ok);
      case Settle(i, ok) => SettleStep(r, m, i, ok);
      case OtherFailure => ChainsDepend(r, Next(r, m, e), m);
      case Rollup => ChainsDepend(r, Next(r, m, e), m);
      case _ => LoopStep(r, m, e);
    }
  }

  lemma StartInvariant(m: Manifest)
    requires WellFormed(m)
    ensures Invariant(Start(m), m)
  {
  }

  lemma {:induction false} PathInvariant(r: Run, m: Manifest, events: seq<Event>, q: Run)
    requires WellFormed(m) && Invariant(r, m) && Path(r, m, events, q)
    ensures Invariant(q, m)
    decreases |events|
  {
    if events != [] {
      StepInvariant(r, m, events[0]);
      PathInvariant(Next(r, m, events[0]), m, events[1..], q);
    }
  }

  /**
   * On every interleaving and whatever the clock shows: no more operations are in flight than the
   * limit; scheduled operations are completed, failed or in flight; the failure counter also holds the
   * failures that are not operations; and the logged intervals add up to the totals.
   */
  lemma EveryRunConserves(m: Manifest, events: seq<Event>, q: Run)
    requires WellFormed(m) && Path(Start(m), m, events, q)
    ensures |q.inFlight| <= m.limit
    ensures q.scheduled == q.completed + q.failedOperations + |q.inFlight|
    ensures q.failed == q.failedOperations + q.otherFailures
    ensures q.completed == q.rolledCompleted + q.intervalCompleted && q.failed == q.rolledFailed + q.intervalFailed
  {
    StartInvariant(m);
    PathInvariant(Start(m), m, events, q);
  }

  /** The sequence a slot expects never goes back. */
  lemma ExpectedNeverDecreases(r: Run, m: Manifest, e: Event, s: nat)
    requires WellFormed(m) && Invariant(r, m) && Enabled(r, m, e) && s < m.active
    ensures Shaped(Next(r, m, e), m) && r.expected[s] <= Next(r, m, e).expected[s]
  {
    StepInvariant(r, m, e);
    assert ChainOk(r, m, s);
  }

  /** The write running for a slot is the oldest unfinished one, newer than every finished one. */
  lemma WritesRunInOrder(m: Manifest, events: seq<Event>, q: Run, s: nat)
    requires WellFormed(m) && Path(Start(m), m, events, q) && s < m.active
    ensures Shaped(q, m) && Increasing(q.chains[s])
    ensures q.chains[s] != [] ==> q.expected[s] < q.chains[s][0] + 1
  {
    StartInvariant(m);
    PathInvariant(Start(m), m, events, q);
    assert ChainOk(q, m, s);
  }

  /** Once a slot drained and none of its writes failed, it expects exactly what the server stores. */
  lemma DrainedSlotMatches(m: Manifest, events: seq<Event>, q: Run, s: nat)
    requires WellFormed(m) && Path(Start(m), m, events, q) && s < m.active
    requires Shaped(q, m) && q.chains[s] == [] && s !in q.broken
    ensures q.expected[s] == q.stored[s]
  {
    StartInvariant(m);
    PathInvariant(Start(m), m, events, q);
    assert ChainOk(q, m, s);
  }

  // ----- when an operation begins -----

  /**
   * An operation begins exactly when its planned time came, nothing asked the loop to stop, a place is
   * free and the deadline has not passed; after a race a place is always free.
   */
  lemma BeginsIff(r: Run, m: Manifest, e: Event)
    requires WellFormed(m) && Invariant(r, m) && Enabled(r, m, e)
    ensures var q := Next(r, m, e);
      (q.index == r.index + 1 && r.index in q.inFlight && q.scheduled == r.scheduled + 1) <==>
        || (e.Wake? && !e.stop && |r.inFlight| < m.limit && e.at < m.deadline)
        || (e.Raced? && e.second < m.deadline)
    ensures Next(r, m, e).index == r.index || Next(r, m, e).index == r.index + 1
  {
    if e.Raced? {
      RaceFreesPlace(r, m, e.first, e.second);
    }
  }

  /** The loop ends exactly when the plan is done, it is asked to stop, or a reading is past the deadline. */
  lemma EndsIff(r: Run, m: Manifest, e: Event)
    requires WellFormed(m) && Invariant(r, m) && Enabled(r, m, e) && !r.phase.Ended?
    ensures Next(r, m, e).phase.Ended? <==>
      || (e.Loop? && (e.stop || e.at >= m.deadline || r.index >= m.total
                      || m.start + r.index as real * m.interval >= m.deadline))
      || (e.Wake? && (e.stop || (|r.inFlight| < m.limit && e.at >= m.deadline)))
      || (e.Raced? && e.second >= m.deadline)
  {
    if e.Raced? {
      RaceFreesPlace(r, m, e.first, e.second);
    }
  }

  // ----- how many operations can be in flight -----

  /** Operation `i` is part of the plan and due before the deadline. */
  predicate Due(m: Manifest, i: nat) {
    i < m.total && PlannedAt(m, i) < m.deadline
  }

  lemma {:induction false} PathGrows(r: Run, m: Manifest, events: seq<Event>, q: Run, e: Event)
    requires WellFormed(m) && Path(r, m, events, q) && Enabled(q, m, e)
    ensures Path(r, m, events + [e], Next(q, m, e))
    decreases |events|
  {
    if events == [] {
      assert events + [e] == [e];
    } else {
      assert (events + [e])[1..] == events[1..] + [e];
      PathGrows(Next(r, m, events[0]), m, events[1..], q, e);
    }
  }

  /** A state at the top of the loop with the first `k` operations all in flight. */
  predicate Filled(q: Run, m: Manifest, k: nat) {
    Shaped(q, m) && q.phase.Head? && q.index == k && |q.inFlight| == k
  }

  lemma {:induction false} Fill(m: Manifest, k: nat) returns (events: seq<Event>, q: Run)
    requires WellFormed(m) && k <= m.limit && forall i :: 0 <= i < k ==> Due(m, i)
    ensures Path(Start(m), m, events, q) && Filled(q, m, k)
  {
    if k == 0 {
      events, q := [], Start(m);
    } else {
      var earlier, r := Fill(m, k - 1);
      StartInvariant(m);
      PathInvariant(Start(m), m, earlier, r);
      assert r.index !in r.inFlight && Due(m, k - 1);
      var loop, wake := Loop(m.deadline - 1.0, false), Wake(m.deadline - 1.0, false);
      PathGrows(Start(m), m, earlier, r, loop);
      PathGrows(Start(m), m, earlier + [loop], Next(r, m, loop), wake);
      events, q := earlier + [loop] + [wake], Next(Next(r, m, loop), m, wake);
    }
  }

  /** Every operation begun, and the one about to begin, passed the test at the top of the loop. */
  predicate Planned(r: Run, m: Manifest) {
    && (forall i :: 0 <= i < r.index ==> Due(m, i))
    && (r.phase.Delaying? || r.phase.Racing? ==> Due(m, r.index))
  }

  lemma PlannedStep(r: Run, m: Manifest, e: Event)
    requires WellFormed(m) && Enabled(r, m, e) && Planned(r, m)
    ensures Planned(Next(r, m, e), m)
  {
    var q := Next(r, m, e);
    assert q.index > r.index ==> q.phase.Head? && q.index == r.index + 1 && Due(m, r.index);
  }

  lemma {:induction false} PathPlanned(r: Run, m: Manifest, events: seq<Event>, q: Run)
    requires WellFormed(m) && Planned(r, m) && Path(r, m, events, q)
    ensures Planned(q, m)
    decreases |events|
  {
    if events != [] {
      PlannedStep(r, m, events[0]);
      PathPlanned(Next(r, m, events[0]), m, events[1..], q);
    }
  }

  ghost predicate InFlightOn(m: Manifest, events: seq<Event>, q: Run, k: nat)
    requires WellFormed(m)
  {
    Path(Start(m), m, events, q) && |q.inFlight| == k
  }

  /** Some run has `k` operations in flight exactly when the limit allows it and the plan has them due. */
  lemma InFlightReachableIff(m: Manifest, k: nat)
    requires WellFormed(m)
    ensures (exists events, q :: InFlightOn(m, events, q, k)) <==>
            k <= m.limit && forall i :: 0 <= i < k ==> Due(m, i)
  {
    if events, q :| InFlightOn(m, events, q, k) {
      StartInvariant(m);
      PathInvariant(Start(m), m, events, q);
      PathPlanned(Start(m), m, events, q);
    }
    if k <= m.limit && forall i :: 0 <= i < k ==> Due(m, i) {
      var events, q := Fill(m, k);
      assert InFlightOn(m, events, q, k);
    }
  }

  // ----- the harness -----

  /** The run as the harness holds it, beside the documents its server stores. */
  class Workload {
    const manifest: Manifest
    var index: nat
    var phase: Phase
    var scheduled: nat
    var completed: nat
    var failed: nat
    var failedOperations: nat
    var otherFailures: nat
    var intervalCompleted: nat
    var intervalFailed: nat
    var rolledCompleted: nat
    var rolledFailed: nat
    var inFlight: set<nat>
    var chains: seq<seq<nat>>
    var written: seq<bool>
    var expected: seq<nat>
    var stored: seq<nat>
    var broken: set<nat>

    constructor (m: Manifest)
      requires WellFormed(m)
      ensures Valid() && manifest == m && State() == Start(m)
    {
      manifest := m;
      index, phase, scheduled, completed, failed := 0, Head, 0, 0, 0;
      failedOperations, otherFailures, intervalCompleted, intervalFailed := 0, 0, 0, 0;
      rolledCompleted, rolledFailed, inFlight, broken := 0, 0, {}, {};
      chains, written := seq(m.active, _ => []), seq(m.active, _ => false);
      expected, stored := seq(m.active, _ => 0), seq(m.active, _ => 0);
      new;
      StartInvariant(m);
      assert State() == Start(m);
    }

    function State(): Run
      reads this
    {
      Run(index, phase, scheduled, completed, failed, failedOperations, otherFailures, intervalCompleted,
          intervalFailed, rolledCompleted, rolledFailed, inFlight, chains, written, expected, stored, broken)
    }

    ghost predicate Valid()
      reads this
    {
      WellFormed(manifest) && Invariant(State(), manifest)
    }

    /** `scheduleOperation` up to its first await, and the bookkeeping around it. */
    method ScheduleOperation()
      requires WellFormed(manifest) && Shaped(State(), manifest)
      modifies this
      ensures State() == Begin(old(State()), manifest)
    {
      var operation := index;
      scheduled, index, phase := scheduled + 1, operation + 1, Head;
      if operation % manifest.listener.modulus == manifest.listener.remainder {
        var slot := (operation / manifest.listener.modulus) % manifest.active;
        chains := chains[slot := chains[slot] + [operation]];
      }
      inFlight := inFlight + {operation};
    }

    /**
     * The scheduling loop after an await, up to the next one. It starts at most one operation and keeps
     * the limit whatever the clock shows; after a race it never waits for another one.
     */
    method Resume(e: Event)
      requires Valid() && Enabled(State(), manifest, e) && (e.Loop? || e.Wake? || e.Raced?)
      modifies this
      ensures Valid() && State() == Next(old(State()), manifest, e)
      ensures old(inFlight) <= inFlight && old(|inFlight|) <= |inFlight| <= old(|inFlight|) + 1
      ensures |inFlight| <= manifest.limit && (e.Raced? ==> !phase.Racing?)
    {
      ghost var before := State();
      LoopStep(before, manifest, e);
      if e.Raced? {
        RaceFreesPlace(before, manifest, e.first, e.second);
      }
      match e {
        case Loop(at, stop) => Looped(at, stop);
        case Wake(at, stop) => Woken(at, stop);
        case Raced(first, second) => Retried(first, second);
      }
      assert State() == Next(before, manifest, e);
    }

    method Looped(at: real, stop: bool)
      requires WellFormed(manifest) && Enabled(State(), manifest, Loop(at, stop))
      modifies this
      ensures State() == Next(old(State()), manifest, Loop(at, stop))
    {
      var plannedAt := PlannedAt(manifest, index);
      if index >= manifest.total || stop || plannedAt >= manifest.deadline || at >= manifest.deadline {
        phase := Ended;
      } else {
        phase := Delaying;
      }
    }

    method Woken(at: real, stop: bool)
      requires WellFormed(manifest) && Enabled(State(), manifest, Wake(at, stop))
      modifies this
      ensures State() == Next(old(State()), manifest, Wake(at, stop))
    {
      if stop {
        phase := Ended;
      } else if |inFlight| >= manifest.limit {
        phase := Racing(inFlight);
      } else if at >= manifest.deadline {
        phase := Ended;
      } else {
        ScheduleOperation();
      }
    }

    method Retried(first: real, second: real)
      requires WellFormed(manifest) && Enabled(State(), manifest, Raced(first, second))
      modifies this
      ensures State() == Next(old(State()), manifest, Raced(first, second))
    {
      if first < manifest.deadline && |inFlight| >= manifest.limit {
        phase := Racing(inFlight);
        return;
      }
      if second >= manifest.deadline {
        phase := Ended;
      } else {
        ScheduleOperation();
      }
    }

    /** An operation settles: it leaves the flight and is counted once, as completed or as failed. */
    method SettleOperation(i: nat, ok: bool)
      requires Valid() && Enabled(State(), manifest, Settle(i, ok))
      modifies this
      ensures Valid() && State() == Next(old(State()), manifest, Settle(i, ok))
      ensures |inFlight| == old(|inFlight|) - 1
      ensures completed + failedOperations == old(completed + failedOperations) + 1
    {
      SettleStep(State(), manifest, i, ok);
      Count(i, ok);
    }

    /**
     * The running write of a slot settles: counted as any operation, and the next write of the slot
     * runs. The slot expects the document this write made, and never an older one than before.
     */
    method SettleWrite(slot: nat, ok: bool)
      requires Valid() && Enabled(State(), manifest, SettleListener(slot, ok))
      modifies this
      ensures Valid() && State() == Next(old(State()), manifest, SettleListener(slot, ok))
      ensures |inFlight| == old(|inFlight|) - 1
      ensures completed + failedOperations == old(completed + failedOperations) + 1
      ensures ok ==> old(expected)[slot] < expected[slot] && (slot !in broken ==> expected[slot] == stored[slot])
    {
      ghost var before := State();
      SettledWrite(before, manifest, slot, ok);
      var i := chains[slot][0];
      chains, written := chains[slot := chains[slot][1..]], written[slot := false];
      if ok {
        expected := expected[slot := i + 1];
      } else {
        broken := broken + {slot};
      }
      Count(i, ok);
      assert State() == Next(before, manifest, SettleListener(slot, ok));
    }

    /** The counters of a settled operation. */
    method Count(i: nat, ok: bool)
      modifies this
      ensures State() == Finish(old(State()), i, ok)
    {
      if ok {
        completed, intervalCompleted := completed + 1, intervalCompleted + 1;
      } else {
        failed, intervalFailed, failedOperations := failed + 1, intervalFailed + 1, failedOperations + 1;
      }
      inFlight := inFlight - {i};
    }

    /** The server stores the running write of a slot. */
    method StoreWrite(slot: nat)
      requires Valid() && Enabled(State(), manifest, Written(slot))
      modifies this
      ensures Valid() && State() == Next(old(State()), manifest, Written(slot))
    {
      WrittenStep(State(), manifest, slot);
      stored, written := stored[slot := chains[slot][0] + 1], written[slot := true];
    }

    method RecordFailure()
      requires Valid()
      modifies this
      ensures Valid() && State() == Next(old(State()), manifest, OtherFailure)
      ensures failed - failedOperations == old(failed - failedOperations) + 1
    {
      ChainsDepend(State(), Next(State(), manifest, OtherFailure), manifest);
      failed, intervalFailed, otherFailures := failed + 1, intervalFailed + 1, otherFailures + 1;
    }

    /** The interval is logged and reset: right after it the logged intervals add up to the totals. */
    method RecordRollup() returns (loggedCompleted: nat, loggedFailed: nat)
      requires Valid()
      modifies this
      ensures Valid() && State() == Next(old(State()), manifest, Rollup)
      ensures old(rolledCompleted) + loggedCompleted == completed && old(rolledFailed) + loggedFailed == failed
    {
      ChainsDepend(State(), Next(State(), manifest, Rollup), manifest);
      loggedCompleted, loggedFailed := intervalCompleted, intervalFailed;
      rolledCompleted, rolledFailed := rolledCompleted + loggedCompleted, rolledFailed + loggedFailed;
      intervalCompleted, intervalFailed := 0, 0;
    }

    method Perform(e: Event)
      requires Valid() && Enabled(State(), manifest, e)
      modifies this
      ensures Valid() && State() == Next(old(State()), manifest, e)
    {
      match e {
        case Written(slot) => StoreWrite(slot);
        case SettleListener(slot, ok) => SettleWrite(slot, ok);
        case Settle(i, ok) => SettleOperation(i, ok);
        case OtherFailure => RecordFailure();
        case Rollup => var _, _ := RecordRollup();
        case _ => Resume(e);
      }
    }
  }

  /**
   * The workload under any interleaving of its events and any clock: no more operations are in flight
   * than the limit, and every scheduled one is completed, failed or still in flight.
   */
  method RunWorkload(m: Manifest, events: seq<Event>) returns (run: Run)
    requires WellFormed(m) && Possible(Start(m), m, events)
    ensures Path(Start(m), m, events, run)
    ensures run.scheduled == run.completed + run.failedOperations + |run.inFlight|
    ensures |run.inFlight| <= m.limit
    ensures Shaped(run, m)
    ensures forall s :: 0 <= s < m.active && run.chains[s] == [] && s !in run.broken ==>
      run.expected[s] == run.stored[s]
  {
    var workload := new Workload(m);
    assert events[..0] == [] && events[0..] == events;
    for k := 0 to |events|
      invariant workload.Valid() && workload.manifest == m
      invariant Path(Start(m), m, events[..k], workload.State())
      invariant Possible(workload.State(), m, events[k..])
    {
      assert events[k..][0] == events[k] && events[k..][1..] == events[k + 1..];
      assert events[..k + 1] == events[..k] + [events[k]];
      PathGrows(Start(m), m, events[..k], workload.State(), events[k]);
      workload.Perform(events[k]);
    }
    assert events[..|events|] == events;
    run := workload.State();
    forall s | 0 <= s < m.active && run.chains[s] == [] && s !in run.broken
      ensures run.expected[s] == run.stored[s]
    {
      assert ChainOk(run, m, s);
    }
  }
}
