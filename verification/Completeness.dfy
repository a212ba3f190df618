/** A load that sees one moment of a coherent store never reports corruption. */
module Completeness {
  import opened Basics
  import opened LaunchTypes
  import opened Receipt
  import opened Evidence
  import opened Ledger
  import opened Lineage

  /** Without a preparation there is neither a claim nor a response. */
  lemma NoOrphans(s: Store, id: AttemptID)
    requires Coherent(s) && AttemptKey(id, PreparedKind) !in s
    ensures Orphans(Atomic(s), id).None?
  {
    hide PreparedJustified, ValidResponse, ValidPlan;
    assert AttemptKey(id, DispatchKind) !in s && AttemptKey(id, ResponseKind) !in s;
  }

  /** The next preparation of a faithful snapshot is the one the history calls for. */
  lemma PreparedAgrees(s: Store, snapshot: Snapshot, id: AttemptID)
    requires Coherent(s) && Faithful(Atomic(s), snapshot)
             && PlanAt(s, snapshot.receipt.request) == Some(snapshot.receipt.plan)
    requires id == NextID(snapshot.receipt.request, LastID(snapshot.receipt.attempts))
    requires AttemptKey(id, PreparedKind) in s
    ensures PreparedAt(s, id).Some? && ReadPrepared(Atomic(s), id) == Ok(PreparedAt(s, id).value)
    ensures PreparedAt(s, id).value.attempt.id == id && |snapshot.receipt.attempts| < MAX_LAUNCH_ATTEMPTS
    ensures ValidPrepared(snapshot.receipt, PreparedAt(s, id).value)
    ensures Past(s, id.parent) == Some(snapshot.receipt.attempts)
  {
    hide ValidPrepared, Traced, Mirrors, HeaderValid, Past;
    assert Justified(s, AttemptKey(id, PreparedKind), s[AttemptKey(id, PreparedKind)]);
    PastIsTraced(s, snapshot.receipt.plan, snapshot.receipt.attempts);
  }

  /** The claim and response of a coherent store load without error. */
  lemma AttemptAgrees(s: Store, snapshot: Snapshot, id: AttemptID, p: PreparedAttempt)
    requires Coherent(s) && PreparedAt(s, id) == Some(p) && Past(s, id.parent) == Some(snapshot.receipt.attempts)
    requires PlanAt(s, id.request) == Some(snapshot.receipt.plan)
    requires snapshot.receipt == History(snapshot.receipt.plan, snapshot.receipt.attempts)
    ensures LoadAttempt(Atomic(s), snapshot, id, p).error.None?
  {
    hide ValidResponse, PreparedJustified, Past, ValidPlan;
    var ck, rk := AttemptKey(id, DispatchKind), AttemptKey(id, ResponseKind);
    if ck in s {
      assert Justified(s, ck, s[ck]);
    }
    if rk in s {
      assert Justified(s, rk, s[rk]);
    }
  }

  lemma {:induction false} CoherentChain(s: Store, snapshot: Snapshot, n: nat)
    requires Coherent(s) && Faithful(Atomic(s), snapshot)
             && PlanAt(s, snapshot.receipt.request) == Some(snapshot.receipt.plan)
    requires n == |snapshot.receipt.attempts| <= MAX_LAUNCH_ATTEMPTS
    ensures LoadChain(Atomic(s), snapshot, LastID(snapshot.receipt.attempts), n).error.None?
    decreases MAX_LAUNCH_ATTEMPTS - n
  {
    hide ValidPrepared, LoadAttempt, Mirrors, Traced, Coherent, HeaderValid, Past, Orphans, AttemptIDs, ValidReceipt;
    var id := NextID(snapshot.receipt.request, LastID(snapshot.receipt.attempts));
    if AttemptKey(id, PreparedKind) !in s {
      NoOrphans(s, id);
      assert ReadPrepared(Atomic(s), id) == Err(NotFound);
    } else {
      PreparedAgrees(s, snapshot, id);
      var p := PreparedAt(s, id).value;
      TracedDepth(Atomic(s), snapshot.receipt.plan, snapshot.receipt.attempts);
      AttemptAgrees(s, snapshot, id, p);
      AttemptLoads(Atomic(s), snapshot, id, p);
      CoherentChain(s, LoadAttempt(Atomic(s), snapshot, id, p).snapshot, n + 1);
    }
  }

  /** The states that the records of a coherent store stand for are the loaded ones, attempt by attempt. */
  lemma LoadComplete(s: Store, request: string)
    requires Coherent(s) && ValidRequest(request)
    ensures var r := LoadFrom(Atomic(s), request);
            if PlanAt(s, request).None? then r == NoPlan(NotFound)
            else
              && r.Loaded? && r.error.None?
              && r.snapshot.receipt.plan == PlanAt(s, request).value
              && Faithful(Atomic(s), r.snapshot) && Ended(Atomic(s), r.snapshot)
              && (r.snapshot.receipt.attempts != [] ==> ValidReceipt(r.snapshot.receipt))
  {
    hide LoadChain, ValidReceipt, Mirrors, Traced, Ended, HeaderValid;
    if PlanKey(request) in s {
      assert Justified(s, PlanKey(request), s[PlanKey(request)]);
      var plan := PlanAt(s, request).value;
      EmptyFaithful(Atomic(s), plan);
      CoherentChain(s, EmptySnapshot(plan), 0);
      LoadFaithful(Atomic(s), request);
    }
  }
}
