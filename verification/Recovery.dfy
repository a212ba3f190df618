/** Resuming a launch: the local copy may add doubtful identities, and a retry asks for exactly the missing capacity. */
module Recovery {
  import opened Basics
  import opened LaunchTypes
  import opened Receipt
  import opened Evidence
  import opened Ledger
  import opened Reconcile

  /** Whether a cached attempt may add its identities to a shared one: same pins, and a shared claim exists. */
  ghost predicate Mergeable(s: Snapshot, shared: AttemptReceipt, local: AttemptReceipt) {
    && !shared.Terminal() && shared.id in s.claims
    && local.id == shared.id && local.token == shared.token && local.count == shared.count
    && (local.instances != [] || local.fleet != "")
  }

  /** The last cached attempt that may add to a shared one. */
  ghost function LastMergeable(s: Snapshot, shared: AttemptReceipt,
                               locals: seq<AttemptReceipt>): Option<AttemptReceipt> {
    if locals == [] then None
    else if Mergeable(s, shared, locals[|locals| - 1]) then Some(locals[|locals| - 1])
    else LastMergeable(s, shared, locals[..|locals| - 1])
  }

  /** Without a cached attempt that may add to it a shared attempt stays as it is. With one it becomes unknown, holds
      exactly the valid identities of both, and names its own Fleet if it has one, otherwise the cached one. */
  ghost predicate Doubted(s: Snapshot, cached: BatchReceipt, shared: AttemptReceipt, merged: AttemptReceipt) {
    match LastMergeable(s, shared, cached.attempts)
    case None => merged == shared
    case Some(local) => Joined(shared, local, merged)
  }

  ghost predicate Joined(shared: AttemptReceipt, local: AttemptReceipt, merged: AttemptReceipt) {
    && merged == shared.(state := Unknown, instances := merged.instances,
                         fleet := if shared.fleet != "" then shared.fleet else local.fleet)
    && Sorted(merged.instances)
    && Elems(merged.instances) == set id | id in shared.instances + local.instances && ValidInstanceID(id)
  }

  /** The attempt that is merged in is one of the cached ones, and there is one whenever any may be merged. */
  lemma {:induction false} LastMergeableFound(s: Snapshot, shared: AttemptReceipt, locals: seq<AttemptReceipt>)
    ensures LastMergeable(s, shared, locals).Some? <==> exists local :: local in locals && Mergeable(s, shared, local)
    ensures LastMergeable(s, shared, locals).Some? ==>
              LastMergeable(s, shared, locals).value in locals
              && Mergeable(s, shared, LastMergeable(s, shared, locals).value)
  {
    hide Mergeable;
    if locals != [] {
      var init, last := locals[..|locals| - 1], locals[|locals| - 1];
      LastMergeableFound(s, shared, init);
      assert locals == init + [last];
      assert forall local | local in init :: local in locals;
    }
  }

  method UnionLists(a: seq<string>, b: seq<string>) returns (r: seq<string>)
    ensures Sorted(r) && Elems(r) == set id | id in a + b && ValidInstanceID(id)
  {
    hide ValidInstanceID;
    r := [];
    var all := a + b;
    for n := 0 to |all|
      invariant Sorted(r) && Elems(r) == set id | id in all[..n] && ValidInstanceID(id)
    {
      assert all[..n + 1] == all[..n] + [all[n]];
      if ValidInstanceID(all[n]) {
        r := SortedInsert(r, all[n]);
      }
    }
    assert all[..|all|] == all;
  }

  /** The inner loop: one shared attempt against every cached one; a later cached attempt replaces an earlier. */
  method MergeAttempt(s: Snapshot, cached: BatchReceipt, shared: AttemptReceipt) returns (merged: AttemptReceipt)
    ensures Doubted(s, cached, shared, merged)
  {
    hide ValidInstanceID, Sorted;
    merged := shared;
    ghost var taken: Option<AttemptReceipt> := None;
    for k := 0 to |cached.attempts|
      invariant taken == LastMergeable(s, shared, cached.attempts[..k])
      invariant if taken.Some? then Joined(shared, taken.value, merged) else merged == shared
    {
      var local := cached.attempts[k];
      assert cached.attempts[..k + 1][..k] == cached.attempts[..k];
      if shared.state == Complete || shared.state == Rejected {
        continue;
      }
      if shared.id != local.id || shared.token != local.token || shared.count != local.count {
        continue;
      }
      if shared.id !in s.claims {
        continue;
      }
      if |local.instances| > 0 || local.fleet != "" {
        var ids := UnionLists(shared.instances, local.instances);
        merged := merged.(state := Unknown, instances := ids);
        if shared.fleet == "" {
          merged := merged.(fleet := local.fleet);
        }
        taken := Some(local);
      }
    }
    assert cached.attempts[..|cached.attempts|] == cached.attempts;
  }

  /** `mergeUnknownCache`: cached identities join attempts that are claimed but not bounded; nothing else changes. */
  method MergeUnknownCache(s: Snapshot, cached: BatchReceipt) returns (t: Snapshot)
    ensures t == s.(receipt := s.receipt.(attempts := t.receipt.attempts))
            && |t.receipt.attempts| == |s.receipt.attempts|
    ensures forall n | 0 <= n < |s.receipt.attempts| :: Doubted(s, cached, s.receipt.attempts[n], t.receipt.attempts[n])
    ensures forall n, local | 0 <= n < |s.receipt.attempts| && local in cached.attempts
                              && Mergeable(s, s.receipt.attempts[n], local) ::
              t.receipt.attempts[n].state == Unknown
    ensures forall n | 0 <= n < |s.receipt.attempts| && t.receipt.attempts[n] != s.receipt.attempts[n] ::
              exists local :: local in cached.attempts && Mergeable(s, s.receipt.attempts[n], local)
  {
    hide Doubted, Mergeable;
    var attempts: seq<AttemptReceipt> := [];
    for n := 0 to |s.receipt.attempts|
      invariant |attempts| == n
      invariant forall k | 0 <= k < n :: Doubted(s, cached, s.receipt.attempts[k], attempts[k])
      invariant forall k, local | 0 <= k < n && local in cached.attempts
                && Mergeable(s, s.receipt.attempts[k], local) ::
                  attempts[k].state == Unknown
      invariant forall k | 0 <= k < n && attempts[k] != s.receipt.attempts[k] ::
                  exists local :: local in cached.attempts && Mergeable(s, s.receipt.attempts[k], local)
    {
      var merged := MergeAttempt(s, cached, s.receipt.attempts[n]);
      DoubtedMeans(s, cached, s.receipt.attempts[n], merged);
      attempts := attempts + [merged];
    }
    t := s.(receipt := s.receipt.(attempts := attempts));
  }

  lemma DoubtedMeans(s: Snapshot, cached: BatchReceipt, shared: AttemptReceipt, merged: AttemptReceipt)
    requires Doubted(s, cached, shared, merged)
    ensures (exists local :: local in cached.attempts && Mergeable(s, shared, local)) ==> merged.state == Unknown
    ensures merged != shared ==> exists local :: local in cached.attempts && Mergeable(s, shared, local)
    ensures merged != shared ==>
              merged == shared.(state := Unknown, instances := merged.instances, fleet := merged.fleet)
              && !shared.Terminal() && shared.id in s.claims
  {
    hide ValidInstanceID, Sorted;
    LastMergeableFound(s, shared, cached.attempts);
  }

  /** A local copy never turns doubt into a bound, nor a bound into doubt: whether shared responses bound the whole
      history is the same before and after the merge. */
  lemma CacheCannotBound(s: Snapshot, cached: BatchReceipt, t: Snapshot)
    requires t == s.(receipt := s.receipt.(attempts := t.receipt.attempts))
             && |t.receipt.attempts| == |s.receipt.attempts|
    requires forall n | 0 <= n < |s.receipt.attempts| ::
               Doubted(s, cached, s.receipt.attempts[n], t.receipt.attempts[n])
    requires forall n | 0 <= n < |s.receipt.attempts| :: SharedAttempt(s, n)
    ensures AllBound(t) <==> AllBound(s)
  {
    hide ValidPrepared, ValidResponse, Doubted, Mergeable;
    forall n | 0 <= n < |s.receipt.attempts|
      ensures SharedBound(t, n) == Some(t.receipt.attempts[n]) <==> SharedBound(s, n) == Some(s.receipt.attempts[n])
    {
      assert Doubted(s, cached, s.receipt.attempts[n], t.receipt.attempts[n]);
      DoubtedMeans(s, cached, s.receipt.attempts[n], t.receipt.attempts[n]);
      assert SharedAttempt(s, n);
    }
  }

  // ---------------------------------------------------------------- retrying

  /** The one successor a retry proposes: the derived identity and exactly the missing count. */
  function Candidate(r: BatchReceipt, missing: int, created: int): AttemptReceipt {
    var parent := LastID(r.attempts);
    var id := NextID(r.request, parent);
    AttemptReceipt(id, parent, ClientToken(r.digest, id, missing), missing, At(created), Prepared, "", [], [])
  }

  /** `p` records exactly the preparation of `a` under the receipt's plan. */
  ghost predicate Prepares(r: BatchReceipt, a: AttemptReceipt, p: PreparedAttempt) {
    p == PreparedAttempt(r.request, r.digest, p.input, a) && BuildFleetInput(r.plan, a) == Some(p.input.input)
  }

  lemma CandidateFits(r: BatchReceipt, missing: int, created: int)
    requires HeaderValid(r) && TerminalChain(r.plan, r.attempts) && ValidPlan(r.plan)
    requires missing == r.plan.requestedCount - |Ids(r.attempts)| && missing >= 1
    ensures var a := Candidate(r, missing, created);
            && BuildFleetInput(r.plan, a).Some? && ValidReceipt(r.(attempts := r.attempts + [a]))
            && (r.attempts != [] ==> forall p | Prepares(r, a, p) :: ValidPrepared(r, p))
  {
    hide TerminalChain, ValidFleetID, ValidInstanceID;
    ReceiptAppend(r, Candidate(r, missing, created));
  }

  /** After a load that shows a bounded history with capacity missing, the successor that a retry builds passes every
      check of `Prepare` against that same load, as long as the history is shorter than the attempt limit, and
      fails the first of them exactly when it is not. */
  lemma RetryIsPreparable(v: View, request: string, created: int) returns (p: PreparedAttempt)
    requires var l := LoadFrom(v, request); l.Loaded? && l.error.None? && l.snapshot.receipt.attempts != []
    requires var r := LoadFrom(v, request).snapshot.receipt;
             TerminalChain(r.plan, r.attempts) && |Ids(r.attempts)| < r.plan.requestedCount
    ensures var r := LoadFrom(v, request).snapshot.receipt;
            var a := Candidate(r, r.plan.requestedCount - |Ids(r.attempts)|, created);
            var next := r.(attempts := r.attempts + [a]);
            && Prepares(r, a, p)
            && (MayPrepare(next, p, r.plan.policy) <==> |r.attempts| < MAX_LAUNCH_ATTEMPTS)
            && PrepareVerdict(LoadFrom(v, request), next, p).None?
  {
    hide LoadFrom, TerminalChain, ValidPrepared, ValidReceipt, ValidPlan, Fits, Ids, BuildFleetInput, Traced;
    LoadFaithful(v, request);
    var s := LoadFrom(v, request).snapshot;
    var r := s.receipt;
    var a := Candidate(r, r.plan.requestedCount - |Ids(r.attempts)|, created);
    CandidateFits(r, r.plan.requestedCount - |Ids(r.attempts)|, created);
    p := PreparedAttempt(r.request, r.digest, InputDigest(BuildFleetInput(r.plan, a).value), a);
    var next := r.(attempts := r.attempts + [a]);
    assert next.attempts[..|next.attempts| - 1] == r.attempts;
    assert r.(attempts := r.attempts) == r;
    TracedDepth(v, r.plan, r.attempts);
  }
}
