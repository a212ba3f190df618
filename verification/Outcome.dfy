/** Accounting of one observation: which allocations count as fulfilled, and what is missing. */
module Outcome {
  import opened Basics
  import opened LaunchTypes
  import opened Receipt

  /** What an observation knows beside the receipt: current workers, and identities bound by shared responses. */
  datatype Known = Known(workers: map<string, Worker>, historical: map<string, AttemptID>)

  datatype BatchStatus = AllocationUnknown | PreparedOnly | AllAllocated | NoCapacity | PartialCapacity

  datatype AttemptOutcome = AttemptOutcome(id: AttemptID, state: AttemptState, fulfilled: int, missing: Option<int>)

  datatype BatchOutcome = BatchOutcome(requested: int, fulfilled: nat, missing: Option<int>, status: BatchStatus,
                                       attempts: seq<AttemptOutcome>, retryAfter: Option<AttemptID>)

  /** An identity counts for an attempt that is complete, that shared history binds it to, or that a verified worker
      names. */
  ghost predicate Counts(k: Known, a: AttemptReceipt, id: string) {
    || a.state == Complete
    || (id in k.historical && k.historical[id] == a.id)
    || (id in k.workers && k.workers[id].status == Allocated && k.workers[id].attempt == Some(a.id))
  }

  ghost function CountedOf(k: Known, a: AttemptReceipt): set<string> {
    set id | id in a.instances && Counts(k, a, id)
  }

  ghost function Counted(k: Known, attempts: seq<AttemptReceipt>): set<string> {
    if attempts == [] then {} else Counted(k, attempts[..|attempts| - 1]) + CountedOf(k, attempts[|attempts| - 1])
  }

  ghost function SumFulfilled(attempts: seq<AttemptOutcome>): int {
    if attempts == [] then 0 else SumFulfilled(attempts[..|attempts| - 1]) + attempts[|attempts| - 1].fulfilled
  }

  lemma SumAppend(attempts: seq<AttemptOutcome>, a: AttemptOutcome)
    ensures SumFulfilled(attempts + [a]) == SumFulfilled(attempts) + a.fulfilled
  {
    assert (attempts + [a])[..|attempts|] == attempts;
  }

  /** The inner loop: identities of one attempt that no earlier attempt counted. */
  method CountAttempt(k: Known, a: AttemptReceipt, start: set<string>) returns (fulfilled: set<string>, count: nat)
    ensures fulfilled == start + CountedOf(k, a)
    ensures count == |fulfilled| - |start|
  {
    fulfilled, count := start, 0;
    for n := 0 to |a.instances|
      invariant fulfilled == start + set id | id in a.instances[..n] && Counts(k, a, id)
      invariant count == |fulfilled| - |start|
    {
      var id := a.instances[n];
      assert a.instances[..n + 1] == a.instances[..n] + [id];
      var counts := a.state == Complete || (id in k.historical && k.historical[id] == a.id);
      if id in k.workers {
        counts := counts || (k.workers[id].status == Allocated && k.workers[id].attempt == Some(a.id));
      }
      assert counts <==> Counts(k, a, id);
      if counts && id !in fulfilled {
        fulfilled := fulfilled + {id};
        count := count + 1;
      }
    }
    assert a.instances[..|a.instances|] == a.instances;
  }

  ghost predicate Unsent(r: BatchReceipt, supported: bool) {
    (r.attempts == [] && supported) || (r.attempts != [] && r.attempts[|r.attempts| - 1].state == Prepared)
  }

  ghost function StatusFor(fulfilled: nat, missing: int): BatchStatus {
    if missing == 0 then AllAllocated else if fulfilled == 0 then NoCapacity else PartialCapacity
  }

  /** The attempt's own shortfall, once shared responses bound it. */
  ghost function OwnMissing(a: AttemptReceipt, bounded: bool): Option<int> {
    if bounded && a.Terminal() then Some(a.count - |a.instances|) else None
  }

  /** `outcome`. Attempt by attempt the counted identities add up to the total, whatever the evidence; the missing
      count exists only for bounded evidence. */
  method Outcome(r: BatchReceipt, k: Known, bounded: bool, supported: bool) returns (o: BatchOutcome)
    ensures o.requested == r.plan.requestedCount && o.fulfilled == |Counted(k, r.attempts)| == SumFulfilled(o.attempts)
    ensures |o.attempts| == |r.attempts|
    ensures forall n | 0 <= n < |r.attempts| ::
              o.attempts[n].id == r.attempts[n].id && o.attempts[n].state == r.attempts[n].state
              && o.attempts[n].missing == OwnMissing(r.attempts[n], bounded)
              && o.attempts[n].fulfilled == OwnCount(k, r.attempts, n)
    ensures o.missing == if bounded && !Unsent(r, supported) then Some(r.plan.requestedCount - o.fulfilled) else None
    ensures o.status == if Unsent(r, supported) then PreparedOnly
                        else if bounded then StatusFor(o.fulfilled, r.plan.requestedCount - o.fulfilled)
                        else AllocationUnknown
    ensures o.retryAfter == if o.missing.Some? && o.missing.value > 0 && ValidRequest(r.request)
                            then LastID(r.attempts) else None
  {
    hide Counted, ValidRequest, SumFulfilled, OwnMissing;
    var fulfilled, attempts := CountAll(r.attempts, k, bounded);
    var missing, status := Classify(r, |fulfilled|, bounded, supported);
    var after := if missing.Some? && missing.value > 0 && ValidRequest(r.request) then LastID(r.attempts) else None;
    o := BatchOutcome(r.plan.requestedCount, |fulfilled|, missing, status, attempts, after);
  }

  /** The loop over the attempts. */
  method CountAll(all: seq<AttemptReceipt>, k: Known, bounded: bool)
    returns (fulfilled: set<string>, attempts: seq<AttemptOutcome>)
    ensures fulfilled == Counted(k, all) && SumFulfilled(attempts) == |fulfilled| && |attempts| == |all|
    ensures forall n | 0 <= n < |all| ::
              && attempts[n].id == all[n].id && attempts[n].state == all[n].state
              && attempts[n].missing == OwnMissing(all[n], bounded)
              && attempts[n].fulfilled == OwnCount(k, all, n)
  {
    hide CountedOf, SumFulfilled, OwnCount, Counted;
    fulfilled, attempts := {}, [];
    NothingSummed();
    for n := 0 to |all|
      invariant fulfilled == Counted(k, all[..n]) && SumFulfilled(attempts) == |fulfilled| && |attempts| == n
      invariant forall j | 0 <= j < n ::
                  && attempts[j].id == all[j].id && attempts[j].state == all[j].state
                  && attempts[j].missing == OwnMissing(all[j], bounded)
                  && attempts[j].fulfilled == OwnCount(k, all, j)
    {
      var a := all[n];
      CountedNext(k, all, n);
      var count;
      fulfilled, count := CountAttempt(k, a, fulfilled);
      var own := None;
      if bounded && (a.state == Complete || a.state == Rejected) {
        own := Some(a.count - |a.instances|);
      }
      var ao := AttemptOutcome(a.id, a.state, count, own);
      SumAppend(attempts, ao);
      attempts := attempts + [ao];
    }
    assert all[..|all|] == all;
  }

  /** What an attempt adds to the identities that count: the ones that no earlier attempt counted. */
  ghost function OwnCount(k: Known, attempts: seq<AttemptReceipt>, n: nat): int
    requires n < |attempts|
  {
    |Counted(k, attempts[..n + 1])| - |Counted(k, attempts[..n])|
  }

  lemma CountedNext(k: Known, all: seq<AttemptReceipt>, n: nat)
    requires n < |all|
    ensures Counted(k, all[..n + 1]) == Counted(k, all[..n]) + CountedOf(k, all[n])
    ensures OwnCount(k, all, n) == |Counted(k, all[..n]) + CountedOf(k, all[n])| - |Counted(k, all[..n])|
  {
    hide CountedOf;
    assert all[..n + 1][..n] == all[..n];
  }

  lemma NothingSummed()
    ensures SumFulfilled([]) == 0 && forall k :: Counted(k, []) == {}
  {
  }

  /** What the total means: a status, and how many are missing if that is known. */
  method Classify(r: BatchReceipt, fulfilled: nat, bounded: bool, supported: bool)
    returns (missing: Option<int>, status: BatchStatus)
    ensures missing == if bounded && !Unsent(r, supported) then Some(r.plan.requestedCount - fulfilled) else None
    ensures status == if Unsent(r, supported) then PreparedOnly
                      else if bounded then StatusFor(fulfilled, r.plan.requestedCount - fulfilled)
                                else AllocationUnknown
  {
    missing, status := None, AllocationUnknown;
    var n := |r.attempts|;
    if (n == 0 && supported) || (n > 0 && r.attempts[n - 1].state == Prepared) {
      status := PreparedOnly;
    } else if bounded {
      missing := Some(r.plan.requestedCount - fulfilled);
      status := PartialCapacity;
      if missing.value == 0 {
        status := AllAllocated;
      } else if fulfilled == 0 {
        status := NoCapacity;
      }
    }
  }

  lemma {:induction false} BoundCounts(plan: LaunchPlan, k: Known, attempts: seq<AttemptReceipt>)
    requires TerminalChain(plan, attempts)
    ensures Counted(k, attempts) == Ids(attempts)
  {
    if attempts != [] {
      var init, last := attempts[..|attempts| - 1], attempts[|attempts| - 1];
      BoundCounts(plan, k, init);
      BoundCountsOne(plan, k, init, last);
    }
    hide Fits, TerminalChain, Counts;
  }

  lemma BoundCountsOne(plan: LaunchPlan, k: Known, init: seq<AttemptReceipt>, a: AttemptReceipt)
    requires Fits(plan, init, a) && a.Terminal()
    ensures CountedOf(k, a) == Elems(a.instances)
  {
    hide ValidInstanceID, ValidFleetID;
  }

  /** For a bounded receipt the outcome conserves capacity, whatever the current workers look like: every identity
      of the history counts once, fulfilled and missing add up to the request, and the missing count is both the
      last attempt's own shortfall and the capacity a retry would ask for. */
  method BoundedOutcome(r: BatchReceipt, k: Known, supported: bool) returns (o: BatchOutcome, c: Capacity)
    requires ValidReceipt(r) && TerminalChain(r.plan, r.attempts)
    ensures SumFulfilled(o.attempts) == o.fulfilled == |Ids(r.attempts)|
    ensures o.missing.Some? && o.fulfilled + o.missing.value == o.requested == r.plan.requestedCount
    ensures c == Missing(o.missing.value) && o.attempts != [] && o.attempts[|o.attempts| - 1].missing == o.missing
    ensures 0 <= o.missing.value <= o.requested
    ensures o.status == AllAllocated <==> o.missing == Some(0)
    ensures o.status == NoCapacity <==> o.missing == Some(o.requested)
    ensures o.status == PartialCapacity <==> 0 < o.missing.value < o.requested
    ensures o.retryAfter == if o.missing.value > 0 then LastID(r.attempts) else None
  {
    hide ValidReceipt, TerminalChain, ValidRequest, OwnMissing, Counted, Unsent, SumFulfilled, Ids, SumInstances;
    LastShortfall(r);
    PlanSize(r);
    BoundCounts(r.plan, k, r.attempts);
    o := Outcome(r, k, true, supported);
    c := MissingCapacity(r, r.attempts[|r.attempts| - 1].id);
  }

  lemma PlanSize(r: BatchReceipt)
    requires ValidReceipt(r)
    ensures 1 <= r.plan.requestedCount && ValidRequest(r.request)
  {
  }

  lemma LastShortfall(r: BatchReceipt)
    requires ValidReceipt(r) && TerminalChain(r.plan, r.attempts)
    ensures r.attempts != [] && OwnMissing(r.attempts[|r.attempts| - 1], true).Some? && !Unsent(r, true)
            && !Unsent(r, false)
    ensures OwnMissing(r.attempts[|r.attempts| - 1], true).value
            == r.attempts[|r.attempts| - 1].count - |r.attempts[|r.attempts| - 1].instances|
  {
    hide Fits;
  }
}
