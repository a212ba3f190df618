/** Receipts: lineage, count arithmetic and the identities that survive every attempt. */
module Receipt {
  import opened Basics
  import opened LaunchTypes

  /** Every instance identity held by a history of attempts. */
  function Ids(attempts: seq<AttemptReceipt>): set<string> {
    if attempts == [] then {} else Ids(attempts[..|attempts| - 1]) + Elems(attempts[|attempts| - 1].instances)
  }

  function Fleets(attempts: seq<AttemptReceipt>): set<string> {
    if attempts == [] then {}
    else Fleets(attempts[..|attempts| - 1])
         + (if attempts[|attempts| - 1].fleet == "" then {} else {attempts[|attempts| - 1].fleet})
  }

  function LastID(attempts: seq<AttemptReceipt>): Option<AttemptID> {
    if attempts == [] then None else Some(attempts[|attempts| - 1].id)
  }

  predicate Recognized(s: AttemptState) {
    !s.Unrecognized?
  }

  predicate HeaderValid(r: BatchReceipt) {
    && ValidRequest(r.request) && r.plan.request == r.request && r.digest == Digest(r.plan)
    && 1 <= r.plan.requestedCount <= HARD_MAX_COUNT
    && r.plan.pins.wellFormed && (r.plan.market == "spot" || r.plan.market == "on-demand")
  }

  /** Attempt `a` may follow the history `prior` of `plan`. */
  predicate Fits(plan: LaunchPlan, prior: seq<AttemptReceipt>, a: AttemptReceipt) {
    && a.createdAt.At?
    && a.parent == LastID(prior) && a.id == NextID(plan.request, a.parent)
    && a.count == plan.requestedCount - |Ids(prior)| && 1 <= a.count
    && a.token == ClientToken(Digest(plan), a.id, a.count)
    && Recognized(a.state)
    && (a.state == Prepared || a.state == Rejected ==> a.instances == [] && a.fleet == "")
    && (a.fleet != "" ==> ValidFleetID(a.fleet) && (a.fleet in Fleets(prior) ==> a.state == Unknown))
    && (|a.instances| > a.count ==> a.state == Unknown)
    && (a.state == Complete ==> a.fleet != "")
    && (forall id | id in a.instances :: ValidInstanceID(id))
    && NoDuplicates(a.instances) && Elems(a.instances) !! Ids(prior)
  }

  /** A history in which every attempt is bounded: only such a history may have a successor. */
  predicate TerminalChain(plan: LaunchPlan, attempts: seq<AttemptReceipt>) {
    attempts == [] ||
    var init, last := attempts[..|attempts| - 1], attempts[|attempts| - 1];
    TerminalChain(plan, init) && Fits(plan, init, last) && last.Terminal()
  }

  /** What `Validate` accepts: a bounded history and one last attempt in any recognized state. */
  predicate ValidReceipt(r: BatchReceipt) {
    && HeaderValid(r) && r.attempts != []
    && TerminalChain(r.plan, r.attempts[..|r.attempts| - 1])
    && Fits(r.plan, r.attempts[..|r.attempts| - 1], r.attempts[|r.attempts| - 1])
  }

  lemma IdsAppend(prior: seq<AttemptReceipt>, a: AttemptReceipt)
    ensures Ids(prior + [a]) == Ids(prior) + Elems(a.instances)
    ensures Fleets(prior + [a]) == Fleets(prior) + (if a.fleet == "" then {} else {a.fleet})
  {
    assert (prior + [a])[..|prior|] == prior;
  }

  lemma ChainAppend(plan: LaunchPlan, prior: seq<AttemptReceipt>, a: AttemptReceipt)
    ensures TerminalChain(plan, prior + [a]) <==> TerminalChain(plan, prior) && Fits(plan, prior, a) && a.Terminal()
  {
    assert (prior + [a])[..|prior|] == prior;
  }

  lemma ReceiptAppend(r: BatchReceipt, a: AttemptReceipt)
    ensures ValidReceipt(r.(attempts := r.attempts + [a]))
            <==> HeaderValid(r) && TerminalChain(r.plan, r.attempts) && Fits(r.plan, r.attempts, a)
  {
    assert (r.attempts + [a])[..|r.attempts|] == r.attempts;
  }

  lemma {:induction false} ChainPrefix(plan: LaunchPlan, attempts: seq<AttemptReceipt>, n: nat)
    requires n <= |attempts| && TerminalChain(plan, attempts)
    ensures TerminalChain(plan, attempts[..n])
    ensures n < |attempts| ==> Fits(plan, attempts[..n], attempts[n]) && attempts[n].Terminal()
  {
    if n == |attempts| {
      assert attempts[..n] == attempts;
    } else {
      var init := attempts[..|attempts| - 1];
      assert init[..n] == attempts[..n];
      if n < |init| {
        ChainPrefix(plan, init, n);
      }
    }
  }

  /** In a bounded history the attempts' own lists add up to the distinct identities: nothing is counted twice. */
  lemma {:induction false} ChainAccounts(plan: LaunchPlan, attempts: seq<AttemptReceipt>)
    requires TerminalChain(plan, attempts)
    ensures SumInstances(attempts) == |Ids(attempts)|
    ensures attempts != [] ==> |Ids(attempts)| <= plan.requestedCount
  {
    if attempts != [] {
      var init, last := attempts[..|attempts| - 1], attempts[|attempts| - 1];
      ChainAccounts(plan, init);
      NoDuplicatesSize(last.instances);
    }
  }

  ghost function SumInstances(attempts: seq<AttemptReceipt>): nat {
    if attempts == [] then 0
    else SumInstances(attempts[..|attempts| - 1]) + |attempts[|attempts| - 1].instances|
  }

  lemma NotFitting(r: BatchReceipt, n: nat)
    requires n < |r.attempts|
    requires !Fits(r.plan, r.attempts[..n], r.attempts[n]) || (n < |r.attempts| - 1 && !r.attempts[n].Terminal())
    ensures !ValidReceipt(r)
  {
    var init := r.attempts[..|r.attempts| - 1];
    if n < |init| {
      assert init[..n] == r.attempts[..n];
      if TerminalChain(r.plan, init) {
        ChainPrefix(r.plan, init, n);
      }
    }
  }

  /** The checks of one attempt that need no loop. */
  predicate FieldsFit(plan: LaunchPlan, parent: Option<AttemptID>, fulfilled: set<string>, fleets: set<string>,
                      a: AttemptReceipt) {
    && a.createdAt.At? && a.id == NextID(plan.request, parent) && a.parent == parent
    && a.count == plan.requestedCount - |fulfilled| && a.count >= 1
    && a.token == ClientToken(Digest(plan), a.id, a.count)
    && Recognized(a.state)
    && ((a.state == Prepared || a.state == Rejected) ==> |a.instances| == 0 && a.fleet == "")
    && (a.fleet != "" ==> ValidFleetID(a.fleet) && !(a.fleet in fleets && a.state != Unknown))
    && !(|a.instances| > a.count && a.state != Unknown) && !(a.state == Complete && a.fleet == "")
  }

  ghost predicate NewIds(ids: seq<string>, taken: set<string>) {
    (forall id | id in ids :: ValidInstanceID(id)) && NoDuplicates(ids) && Elems(ids) !! taken
  }

  /** The inner loop of `Validate`: every identity is well formed and new, to this attempt and to its history. */
  method ClaimIds(ids: seq<string>, taken: set<string>) returns (ok: bool, fulfilled: set<string>)
    ensures ok <==> NewIds(ids, taken)
    ensures ok ==> fulfilled == taken + Elems(ids)
  {
    fulfilled := taken;
    var k := 0;
    while k < |ids|
      invariant 0 <= k <= |ids|
      invariant fulfilled == taken + Elems(ids[..k])
      invariant forall j | 0 <= j < k :: ValidInstanceID(ids[j])
      invariant NoDuplicates(ids[..k]) && Elems(ids[..k]) !! taken
    {
      var id := ids[k];
      assert ids[..k + 1] == ids[..k] + [id];
      if !ValidInstanceID(id) || id in fulfilled {
        assert id in ids && id in Elems(ids);
        if id in Elems(ids[..k]) {
          var j :| 0 <= j < k && ids[j] == id;
          assert ids[j] == ids[k];
        }
        return false, fulfilled;
      }
      fulfilled := fulfilled + {id};
      k := k + 1;
    }
    assert ids[..k] == ids;
    return true, fulfilled;
  }

  lemma Advance(r: BatchReceipt, n: nat)
    requires n < |r.attempts| && HeaderValid(r)
    requires TerminalChain(r.plan, r.attempts[..n]) && Fits(r.plan, r.attempts[..n], r.attempts[n])
    ensures Ids(r.attempts[..n + 1]) == Ids(r.attempts[..n]) + Elems(r.attempts[n].instances)
    ensures Fleets(r.attempts[..n + 1])
            == Fleets(r.attempts[..n]) + (if r.attempts[n].fleet == "" then {} else {r.attempts[n].fleet})
    ensures LastID(r.attempts[..n + 1]) == Some(r.attempts[n].id)
    ensures r.attempts[n].Terminal() ==> TerminalChain(r.plan, r.attempts[..n + 1])
    ensures n + 1 == |r.attempts| ==> ValidReceipt(r)
  {
    hide Fits, HeaderValid;
    var prior, a := r.attempts[..n], r.attempts[n];
    assert r.attempts[..n + 1] == prior + [a];
    IdsAppend(prior, a);
    if a.Terminal() {
      ChainAppend(r.plan, prior, a);
    }
  }

  lemma ChecksAreFits(plan: LaunchPlan, prior: seq<AttemptReceipt>, a: AttemptReceipt)
    ensures Fits(plan, prior, a) <==>
              FieldsFit(plan, LastID(prior), Ids(prior), Fleets(prior), a)
              && NewIds(a.instances, Ids(prior))
  {
  }

  /** What `Validate` checks of the request and its plan. */
  method CheckHeader(r: BatchReceipt) returns (ok: bool)
    ensures ok <==> HeaderValid(r)
  {
    var p := r.plan;
    return ValidRequest(r.request) && p.request == r.request && r.digest == Digest(p) && p.requestedCount >= 1
           && p.requestedCount <= HARD_MAX_COUNT && p.pins.wellFormed
              && (p.market == "spot" || p.market == "on-demand");
  }

  /** The loop of `Validate` decides exactly the receipts whose every attempt fits its history. */
  method Validate(r: BatchReceipt) returns (ok: bool)
    ensures ok == ValidReceipt(r)
  {
    hide Fits, FieldsFit, NewIds, HeaderValid;
    var header := CheckHeader(r);
    if !header || r.attempts == [] {
      return false;
    }
    var fulfilled: set<string> := {};
    var fleets: set<string> := {};
    var parent: Option<AttemptID> := None;
    var n := 0;
    while n < |r.attempts|
      invariant 0 <= n <= |r.attempts|
      invariant fulfilled == Ids(r.attempts[..n]) && fleets == Fleets(r.attempts[..n])
      invariant parent == LastID(r.attempts[..n])
      invariant n < |r.attempts| ==> TerminalChain(r.plan, r.attempts[..n])
      invariant n == |r.attempts| ==> ValidReceipt(r)
    {
      var a := r.attempts[n];
      ChecksAreFits(r.plan, r.attempts[..n], a);
      if !FieldsFit(r.plan, parent, fulfilled, fleets, a) {
        NotFitting(r, n);
        return false;
      }
      if a.fleet != "" {
        fleets := fleets + {a.fleet};
      }
      ok, fulfilled := ClaimIds(a.instances, fulfilled);
      if !ok || (n < |r.attempts| - 1 && a.state != Complete && a.state != Rejected) {
        NotFitting(r, n);
        return false;
      }
      Advance(r, n);
      parent := Some(a.id);
      n := n + 1;
    }
    ok := true;
  }

  /** The inner loop of `FulfilledIDs`: every identity of one attempt joins the sorted list. */
  method InsertAll(before: seq<string>, ids: seq<string>) returns (result: seq<string>)
    requires Sorted(before)
    ensures Sorted(result) && Elems(result) == Elems(before) + Elems(ids)
  {
    hide Sorted;
    result := before;
    var k := 0;
    while k < |ids|
      invariant 0 <= k <= |ids|
      invariant Sorted(result) && Elems(result) == Elems(before) + Elems(ids[..k])
    {
      assert ids[..k + 1] == ids[..k] + [ids[k]];
      result := SortedInsert(result, ids[k]);
      k := k + 1;
    }
    assert ids[..k] == ids;
  }

  /** `FulfilledIDs` lists every identity of every attempt once, in order. */
  method FulfilledIDs(r: BatchReceipt) returns (result: seq<string>)
    ensures Sorted(result) && Elems(result) == Ids(r.attempts)
  {
    result := [];
    assert Sorted(result);
    hide Sorted;
    var n := 0;
    while n < |r.attempts|
      invariant 0 <= n <= |r.attempts|
      invariant Sorted(result) && Elems(result) == Ids(r.attempts[..n])
    {
      var a := r.attempts[n];
      assert r.attempts[..n + 1] == r.attempts[..n] + [a];
      IdsAppend(r.attempts[..n], a);
      result := InsertAll(result, a.instances);
      n := n + 1;
    }
    assert r.attempts[..n] == r.attempts;
  }

  datatype Capacity = Missing(count: int) | Refused(code: string)

  /** Only a bounded receipt has a missing count, and then it is both the remainder of the request and the
      last attempt's own shortfall; conversely every receipt that is valid, bounded and named gets a count. */
  method MissingCapacity(r: BatchReceipt, after: AttemptID) returns (c: Capacity)
    ensures c.Missing? <==> ValidReceipt(r) && LastID(r.attempts) == Some(after) && TerminalChain(r.plan, r.attempts)
    ensures c.Missing? ==>
              var last := r.attempts[|r.attempts| - 1];
              && c.count == r.plan.requestedCount - |Ids(r.attempts)|
              && c.count == last.count - |last.instances|
              && 0 <= c.count <= r.plan.requestedCount
              && c.count == r.plan.requestedCount - SumInstances(r.attempts)
    ensures c.Refused? ==> c.code == (if !ValidReceipt(r) then "receipt_invalid"
                                      else if LastID(r.attempts) != Some(after) then "retry_parent_mismatch"
                                      else "allocation_unknown")
  {
    var ok := Validate(r);
    if !ok {
      return Refused("receipt_invalid");
    }
    var last := r.attempts[|r.attempts| - 1];
    if after != last.id {
      return Refused("retry_parent_mismatch");
    }
    if last.state != Complete && last.state != Rejected {
      return Refused("allocation_unknown");
    }
    var ids := FulfilledIDs(r);
    SortedNoDuplicates(ids);
    NoDuplicatesSize(ids);
    ChainAccounts(r.plan, r.attempts);
    NoDuplicatesSize(last.instances);
    return Missing(r.plan.requestedCount - |ids|);
  }
}
