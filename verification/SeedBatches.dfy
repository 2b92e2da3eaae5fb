/** Seeding the soak's working set: writes are batched by count and by payload bytes. */
module SeedBatches {

  const MAXIMUM_BATCH_BYTES: nat := 3 * 1024 * 1024

  function Bytes(sizes: seq<nat>, ordinals: seq<nat>): nat
    requires forall i :: 0 <= i < |ordinals| ==> ordinals[i] < |sizes|
  {
    if ordinals == [] then 0 else Bytes(sizes, ordinals[..|ordinals| - 1]) + sizes[ordinals[|ordinals| - 1]]
  }

  function Flatten(batches: seq<seq<nat>>): seq<nat> {
    if batches == [] then [] else Flatten(batches[..|batches| - 1]) + batches[|batches| - 1]
  }

  function Append(ordinals: seq<nat>, k: nat): seq<nat> {
    ordinals + [k]
  }

  /** Consecutive ordinals. */
  function Range(lo: nat, hi: nat): seq<nat>
    requires lo <= hi
  {
    seq(hi - lo, i requires 0 <= i < hi - lo => lo + i)
  }

  predicate Within(ordinals: seq<nat>, n: nat) {
    forall i :: 0 <= i < |ordinals| ==> ordinals[i] < n
  }

  /** At most the batch size, and within the byte limit unless one payload alone exceeds it. */
  predicate FitsLimits(sizes: seq<nat>, batchSize: nat, batch: seq<nat>) {
    && Within(batch, |sizes|)
    && (|batch| <= batchSize || |batch| <= 1)
    && (Bytes(sizes, batch) <= 3145728 || |batch| == 1)
  }

  ghost predicate AllFit(sizes: seq<nat>, batchSize: nat, batches: seq<seq<nat>>) {
    forall b :: 0 <= b < |batches| ==> FitsLimits(sizes, batchSize, batches[b])
  }

  /** No batch is closed early: it is full, or the next payload would not have fitted. */
  ghost predicate ClosedLate(sizes: seq<nat>, batchSize: nat, batch: seq<nat>, next: nat)
    requires Within(batch, |sizes|) && next < |sizes|
  {
    |batch| >= batchSize || Bytes(sizes, batch) + sizes[next] > 3145728
  }

  ghost predicate Greedy(sizes: seq<nat>, batchSize: nat, batches: seq<seq<nat>>)
    requires AllFit(sizes, batchSize, batches)
  {
    forall b :: 0 <= b < |batches| - 1 && batches[b + 1] != [] ==>
      ClosedLate(sizes, batchSize, batches[b], batches[b + 1][0])
  }

  lemma BytesAppends(sizes: seq<nat>, batch: seq<nat>, k: nat)
    requires Within(batch, |sizes|) && k < |sizes|
    ensures Within(batch + [k], |sizes|) && Bytes(sizes, batch + [k]) == Bytes(sizes, batch) + sizes[k]
  {
    assert (batch + [k])[..|batch|] == batch;
  }

  lemma FlattenAppends(batches: seq<seq<nat>>, batch: seq<nat>)
    ensures Flatten(batches + [batch]) == Flatten(batches) + batch
  {
    assert (batches + [batch])[..|batches|] == batches;
  }

  lemma RangeAppends(front: seq<nat>, pending: seq<nat>, k: nat)
    requires front + pending == Range(0, k)
    ensures front + (pending + [k]) == Range(0, k + 1)
  {
    assert Range(0, k + 1) == Range(0, k) + [k];
    assert front + (pending + [k]) == (front + pending) + [k];
  }

  /** The batches so far and the open one: every closed batch is closed for good reason. */
  ghost predicate Tidy(sizes: seq<nat>, batchSize: nat, batches: seq<seq<nat>>, pending: seq<nat>) {
    && AllFit(sizes, batchSize, batches) && FitsLimits(sizes, batchSize, pending)
    && Greedy(sizes, batchSize, batches)
    && (pending != [] && batches != [] ==> ClosedLate(sizes, batchSize, batches[|batches| - 1], pending[0]))
  }

  lemma CloseTidy(sizes: seq<nat>, batchSize: nat, batches: seq<seq<nat>>, pending: seq<nat>)
    requires Tidy(sizes, batchSize, batches, pending)
    ensures Tidy(sizes, batchSize, batches + [pending], [])
  {
  }

  lemma AddTidy(sizes: seq<nat>, batchSize: nat, batches: seq<seq<nat>>, pending: seq<nat>, k: nat)
    requires Tidy(sizes, batchSize, batches, pending) && k < |sizes|
    requires |pending| < batchSize || pending == []
    requires pending == [] || Bytes(sizes, pending) + sizes[k] <= MAXIMUM_BATCH_BYTES
    requires pending == [] && batches != [] ==> ClosedLate(sizes, batchSize, batches[|batches| - 1], k)
    ensures Tidy(sizes, batchSize, batches, pending + [k])
  {
    BytesAppends(sizes, pending, k);
  }

  /** The first `k` ordinals are batched or pending, in order. */
  ghost predicate Progress(sizes: seq<nat>, batchSize: nat, batches: seq<seq<nat>>, pending: seq<nat>, k: nat) {
    Tidy(sizes, batchSize, batches, pending) && Flatten(batches) + pending == Range(0, k)
  }

  lemma CloseProgress(sizes: seq<nat>, batchSize: nat, batches: seq<seq<nat>>, pending: seq<nat>, k: nat)
    requires Progress(sizes, batchSize, batches, pending, k)
    ensures Progress(sizes, batchSize, batches + [pending], [], k)
    ensures Flatten(batches + [pending]) == Range(0, k)
  {
    FlattenAppends(batches, pending);
    CloseTidy(sizes, batchSize, batches, pending);
    assert Flatten(batches + [pending]) + [] == Flatten(batches + [pending]);
  }

  lemma AddProgress(sizes: seq<nat>, batchSize: nat, batches: seq<seq<nat>>, pending: seq<nat>, k: nat)
    requires Progress(sizes, batchSize, batches, pending, k) && k < |sizes|
    requires |pending| < batchSize || pending == []
    requires pending == [] || Bytes(sizes, pending) + sizes[k] <= MAXIMUM_BATCH_BYTES
    requires pending == [] && batches != [] ==> ClosedLate(sizes, batchSize, batches[|batches| - 1], k)
    ensures Progress(sizes, batchSize, batches, pending + [k], k + 1)
    ensures Bytes(sizes, pending + [k]) == Bytes(sizes, pending) + sizes[k]
  {
    AddTidy(sizes, batchSize, batches, pending, k);
    BytesAppends(sizes, pending, k);
    RangeAppends(Flatten(batches), pending, k);
  }

  /** A rejection is outstanding exactly when a pending write fails; no earlier write failed. */
  ghost predicate Outstanding(fails: nat -> bool, pending: seq<nat>, rejected: bool, k: nat) {
    && (rejected <==> exists i :: 0 <= i < |pending| && fails(pending[i]))
    && (rejected ==> exists i :: 0 <= i < k && fails(i))
    && (forall i :: 0 <= i < k && fails(i) ==> i in pending)
  }

  lemma AddOutstanding(fails: nat -> bool, pending: seq<nat>, rejected: bool, k: nat)
    requires Outstanding(fails, pending, rejected, k)
    ensures Outstanding(fails, pending + [k], rejected || fails(k), k + 1)
  {
    var more := pending + [k];
    assert more[|pending|] == k;
    if rejected {
      var i :| 0 <= i < |pending| && fails(pending[i]);
      assert more[i] == pending[i];
    }
    forall i | 0 <= i < k + 1 && fails(i)
      ensures i in more
    {
      if i == k {
        assert more[|pending|] == i;
      } else {
        assert i in pending;
      }
    }
  }

  lemma CloseOutstanding(fails: nat -> bool, pending: seq<nat>, k: nat)
    requires Outstanding(fails, pending, false, k)
    ensures Outstanding(fails, [], false, k)
    ensures forall i :: 0 <= i < k ==> !fails(i)
  {
    forall i | 0 <= i < k
      ensures !fails(i)
    {
      assert fails(i) ==> i in pending;
    }
  }

  /** Everything the loop knows after the first `k` ordinals. */
  ghost predicate Ready(sizes: seq<nat>, batchSize: nat, fails: nat -> bool, batches: seq<seq<nat>>, pending: seq<nat>,
                        bytes: nat, rejected: bool, k: nat) {
    && k <= |sizes| && Progress(sizes, batchSize, batches, pending, k) && bytes == Bytes(sizes, pending)
    && Outstanding(fails, pending, rejected, k)
  }

  /** A batch that ends the run because a write was rejected. */
  lemma RejectedEnds(sizes: seq<nat>, batchSize: nat, fails: nat -> bool, batches: seq<seq<nat>>, pending: seq<nat>,
                     bytes: nat, k: nat)
    requires Ready(sizes, batchSize, fails, batches, pending, bytes, true, k)
    ensures AllFit(sizes, batchSize, batches) && AllFit(sizes, batchSize, batches + [pending])
    ensures exists i :: 0 <= i < |sizes| && fails(i)
  {
    CloseTidy(sizes, batchSize, batches, pending);
    var i :| 0 <= i < k && fails(i);
    assert i < |sizes|;
  }

  lemma ReadyCloses(sizes: seq<nat>, batchSize: nat, fails: nat -> bool, batches: seq<seq<nat>>, pending: seq<nat>,
                    bytes: nat, k: nat)
    requires Ready(sizes, batchSize, fails, batches, pending, bytes, false, k)
    ensures Ready(sizes, batchSize, fails, batches + [pending], [], 0, false, k)
    ensures forall i :: 0 <= i < k ==> !fails(i)
    ensures AllFit(sizes, batchSize, batches + [pending]) && Greedy(sizes, batchSize, batches + [pending])
    ensures Flatten(batches + [pending]) == Range(0, k)
  {
    CloseProgress(sizes, batchSize, batches, pending, k);
    CloseOutstanding(fails, pending, k);
  }

  /** The write may join the pending batch. */
  ghost predicate Fitting(sizes: seq<nat>, batchSize: nat, batches: seq<seq<nat>>, pending: seq<nat>, k: nat)
    requires k < |sizes| && Within(pending, |sizes|) && AllFit(sizes, batchSize, batches)
  {
    && (pending == [] || (|pending| < batchSize && Bytes(sizes, pending) + sizes[k] <= MAXIMUM_BATCH_BYTES))
    && (pending == [] && batches != [] ==> ClosedLate(sizes, batchSize, batches[|batches| - 1], k))
  }

  lemma ReadyAdds(sizes: seq<nat>, batchSize: nat, fails: nat -> bool, batches: seq<seq<nat>>, pending: seq<nat>,
                  bytes: nat, rejected: bool, k: nat)
    requires k < |sizes| && Ready(sizes, batchSize, fails, batches, pending, bytes, rejected, k)
    requires Fitting(sizes, batchSize, batches, pending, k)
    ensures Ready(sizes, batchSize, fails, batches, Append(pending, k), bytes + sizes[k], rejected || fails(k), k + 1)
  {
    AddProgress(sizes, batchSize, batches, pending, k);
    AddOutstanding(fails, pending, rejected, k);
  }

  lemma OverflowFits(sizes: seq<nat>, batchSize: nat, batches: seq<seq<nat>>, pending: seq<nat>, k: nat)
    requires k < |sizes| && FitsLimits(sizes, batchSize, pending) && AllFit(sizes, batchSize, batches)
    requires pending != [] && Bytes(sizes, pending) + sizes[k] > MAXIMUM_BATCH_BYTES
    ensures Fitting(sizes, batchSize, batches + [pending], [], k)
  {
  }

  /** The last batch was closed because it was full, if nothing is pending. */
  ghost predicate FullOrPending(batchSize: nat, batches: seq<seq<nat>>, pending: seq<nat>) {
    && (|pending| < batchSize || pending == [])
    && (pending == [] && batches != [] ==> |batches[|batches| - 1]| >= batchSize)
  }

  /** A known failure: the run throws, and what was written so far is within the limits. */
  ghost predicate Thrown(sizes: seq<nat>, batchSize: nat, fails: nat -> bool, batches: seq<seq<nat>>) {
    AllFit(sizes, batchSize, batches) && exists i :: 0 <= i < |sizes| && fails(i)
  }

  /** `drainPendingWrites`: closes the batch and throws when one of its writes was rejected. */
  method DrainPendingWrites(sizes: seq<nat>, batchSize: nat, fails: nat -> bool, batches: seq<seq<nat>>,
                            pending: seq<nat>, bytes: nat, rejected: bool, k: nat)
    returns (threw: bool, drained: seq<seq<nat>>)
    requires Ready(sizes, batchSize, fails, batches, pending, bytes, rejected, k)
    ensures threw == rejected && drained == batches + [pending]
    ensures threw ==> Thrown(sizes, batchSize, fails, drained)
    ensures !threw ==> Ready(sizes, batchSize, fails, drained, [], 0, false, k)
    ensures !threw ==> AllFit(sizes, batchSize, drained) && Greedy(sizes, batchSize, drained)
    ensures !threw ==> Flatten(drained) == Range(0, k) && forall i :: 0 <= i < k ==> !fails(i)
  {
    threw, drained := rejected, batches + [pending];
    if rejected {
      RejectedEnds(sizes, batchSize, fails, batches, pending, bytes, k);
    } else {
      ReadyCloses(sizes, batchSize, fails, batches, pending, bytes, k);
    }
  }

  /** The first half of an iteration: drain when the payload would not fit, then add the write. */
  method AddWrite(sizes: seq<nat>, batchSize: nat, fails: nat -> bool, ordinal: nat, batches: seq<seq<nat>>,
                  pending: seq<nat>, bytes: nat, rejected: bool)
    returns (threw: bool, closed: seq<seq<nat>>, open: seq<nat>, openBytes: nat, failed: bool)
    requires ordinal < |sizes| && Ready(sizes, batchSize, fails, batches, pending, bytes, rejected, ordinal)
    requires FullOrPending(batchSize, batches, pending)
    ensures threw ==> Thrown(sizes, batchSize, fails, closed)
    ensures !threw ==> Ready(sizes, batchSize, fails, closed, open, openBytes, failed, ordinal + 1) && open != []
  {
    threw, closed, open, openBytes, failed := false, batches, pending, bytes, rejected;
    if |open| > 0 && openBytes + sizes[ordinal] > MAXIMUM_BATCH_BYTES {
      OverflowFits(sizes, batchSize, batches, pending, ordinal);
      threw, closed := DrainPendingWrites(sizes, batchSize, fails, batches, pending, bytes, rejected, ordinal);
      if threw {
        return;
      }
      open, openBytes := [], 0;
    }
    assert Fitting(sizes, batchSize, closed, open, ordinal);
    ReadyAdds(sizes, batchSize, fails, closed, open, openBytes, failed, ordinal);
    open, openBytes, failed := Append(open, ordinal), openBytes + sizes[ordinal], failed || fails(ordinal);
  }

  /**
   * `seedWorkingSet`. `fails(k)` says whether write `k` is rejected, `early(k)` whether a rejection
   * still pending is already known at the end of iteration `k`. The call succeeds exactly when no
   * write fails, and then every ordinal was written once, in order, in batches within the limits.
   */
  method SeedWorkingSet(sizes: seq<nat>, batchSize: nat, fails: nat -> bool, early: nat -> bool)
    returns (ok: bool, batches: seq<seq<nat>>)
    ensures ok <==> forall k :: 0 <= k < |sizes| ==> !fails(k)
    ensures AllFit(sizes, batchSize, batches)
    ensures ok ==> Flatten(batches) == Range(0, |sizes|) && Greedy(sizes, batchSize, batches)
  {
    batches := [];
    var pending: seq<nat> := [];
    var pendingPayloadBytes: nat := 0;
    var rejected, threw := false, false;
    for ordinal := 0 to |sizes|
      invariant Ready(sizes, batchSize, fails, batches, pending, pendingPayloadBytes, rejected, ordinal)
      invariant FullOrPending(batchSize, batches, pending)
    {
      threw, batches, pending, pendingPayloadBytes, rejected :=
        AddWrite(sizes, batchSize, fails, ordinal, batches, pending, pendingPayloadBytes, rejected);
      if threw {
        return false, batches;
      }
      if |pending| >= batchSize {
        threw, batches := DrainPendingWrites(sizes, batchSize, fails, batches, pending, pendingPayloadBytes, rejected,
                                             ordinal + 1);
        if threw {
          return false, batches;
        }
        pending, pendingPayloadBytes := [], 0;
      }
      if rejected && early(ordinal) {
        RejectedEnds(sizes, batchSize, fails, batches, pending, pendingPayloadBytes, ordinal + 1);
        return false, batches;
      }
    }
    threw, batches := DrainPendingWrites(sizes, batchSize, fails, batches, pending, pendingPayloadBytes, rejected,
                                         |sizes|);
    ok := !threw;
  }
}
