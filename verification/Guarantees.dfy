/** What the launch protocol promises about every run. */
module Guarantees {
  import opened Basics
  import opened LaunchTypes
  import opened Receipt
  import opened Fleet
  import opened Evidence
  import opened Ledger
  import opened Lineage
  import opened Completeness
  import opened Protocol
  import opened Safety

  /** Every instance that EC2 has allocated for a request, over all its calls. */
  ghost function AllocatedFor(calls: seq<Call>, request: string): set<string> {
    if calls == [] then {}
    else
      var last := calls[|calls| - 1];
      AllocatedFor(calls[..|calls| - 1], request) + (if last.attempt.request == request then last.instances else {})
  }

  lemma {:induction false} AllocatedWithin(calls: seq<Call>, request: string, bound: set<string>)
    requires forall i | 0 <= i < |calls| && calls[i].attempt.request == request :: calls[i].instances <= bound
    ensures AllocatedFor(calls, request) <= bound
  {
    if calls != [] {
      AllocatedWithin(calls[..|calls| - 1], request, bound);
    }
  }

  /** The history an existing call was prepared on, and the slot that its attempt takes after it. */
  lemma CallHistory(s: State, i: nat)
    requires Inv(s) && i < |s.calls|
    ensures var call := s.calls[i];
            && PlanAt(s.store, call.attempt.request).Some? && Past(s.store, call.attempt.parent).Some?
            && var plan, h := PlanAt(s.store, call.attempt.request).value, Past(s.store, call.attempt.parent).value;
               && plan.request == call.attempt.request && TerminalChain(plan, h)
               && call.input.target == plan.requestedCount - |Ids(h)|
               && |call.instances| <= call.input.target
               && call.attempt == Slot(plan.request, |h|)
  {
    hide ClientsInv, Permitted, ResponsesInv, OneCallEach, Coherent, Fits, TerminalChain, Past, Slot, ValidPrepared,
         Justified;
    var call := s.calls[i];
    assert CallInv(s, call);
    CoherentStore(s);
    var p := PreparedAt(s.store, call.attempt).value;
    StoredPrepared(s.store, call.attempt);
    var plan, h := PlanAt(s.store, call.attempt.request).value, Past(s.store, call.attempt.parent).value;
    PreparedFits(History(plan, h), p);
    FitsParent(plan, h, p.attempt);
    ChainSlots(plan, h);
  }

  lemma StoredPrepared(s: Store, id: AttemptID)
    requires Coherent(s) && PreparedAt(s, id).Some?
    ensures PreparedJustified(s, id, PreparedAt(s, id).value)
  {
    hide PreparedJustified;
    assert Justified(s, AttemptKey(id, PreparedKind), s[AttemptKey(id, PreparedKind)]);
  }

  /** A call whose attempt lies in a bounded history of the store is closed, and the history names all it allocated. */
  lemma PastCallNamed(s: State, i: nat, plan: LaunchPlan, parent: Option<AttemptID>)
    requires Inv(s) && i < |s.calls| && Past(s.store, parent).Some?
    requires var h := Past(s.store, parent).value;
             TerminalChain(plan, h) && exists n :: 0 <= n < |h| && s.calls[i].attempt == Slot(plan.request, n)
    ensures s.calls[i].closed && s.calls[i].instances <= Ids(Past(s.store, parent).value)
  {
    hide ClientsInv, Permitted, CallsHeld, OneCallEach, Coherent, Fits, TerminalChain, Past, Slot, Justified;
    var h := Past(s.store, parent).value;
    var n :| 0 <= n < |h| && s.calls[i].attempt == Slot(plan.request, n);
    ChainSlots(plan, h);
    PastResponses(s.store, parent, n);
    var r := ResponseAt(s.store, h[n].id).value;
    var k := AttemptKey(h[n].id, ResponseKind);
    assert s.network[s.writer[k]] == Write(k, s.store[k]);
    assert HonestResponse(s.calls, r);
    IdsContain(h, n);
  }

  lemma {:induction false} IdsContain(attempts: seq<AttemptReceipt>, n: nat)
    requires n < |attempts|
    ensures Elems(attempts[n].instances) <= Ids(attempts)
  {
    if n < |attempts| - 1 {
      IdsContain(attempts[..|attempts| - 1], n);
    }
  }

  /** The deepest call of a request. */
  lemma {:induction false} DeepestCall(calls: seq<Call>, request: string) returns (top: nat)
    requires exists i :: 0 <= i < |calls| && calls[i].attempt.request == request
    ensures top < |calls| && calls[top].attempt.request == request
    ensures forall i | 0 <= i < |calls| && calls[i].attempt.request == request ::
              Depth(calls[i].attempt) <= Depth(calls[top].attempt)
  {
    hide Depth;
    var init := calls[..|calls| - 1];
    if i :| 0 <= i < |init| && init[i].attempt.request == request {
      top := DeepestCall(init, request);
      if calls[|init|].attempt.request == request && Depth(calls[top].attempt) < Depth(calls[|init|].attempt) {
        top := |init|;
      }
    } else {
      top := |init|;
    }
    forall i | 0 <= i < |calls| && calls[i].attempt.request == request
      ensures Depth(calls[i].attempt) <= Depth(calls[top].attempt)
    {
      if i < |init| {
        assert calls[i] == init[i];
      }
    }
  }

  lemma {:induction false} SlotDepth(request: string, n: nat)
    ensures Depth(Slot(request, n)) == n + 1
  {
    if n > 0 {
      SlotDepth(request, n - 1);
    }
  }

  /** Every other call of the request belongs to the deepest call's bounded history. */
  lemma OthersArePast(s: State, top: nat, i: nat)
    requires Inv(s) && top < |s.calls| && i < |s.calls| && i != top
    requires s.calls[i].attempt.request == s.calls[top].attempt.request
    requires Depth(s.calls[i].attempt) <= Depth(s.calls[top].attempt)
    ensures Past(s.store, s.calls[top].attempt.parent).Some?
    ensures s.calls[i].instances <= Ids(Past(s.store, s.calls[top].attempt.parent).value)
  {
    hide StoreInv, ClientsInv, Permitted, CallsHeld, ResponsesInv, Fits, TerminalChain, Past, Slot, Depth, Ids;
    CallHistory(s, top);
    CallHistory(s, i);
    var request := s.calls[top].attempt.request;
    var plan := PlanAt(s.store, request).value;
    var h, g := Past(s.store, s.calls[top].attempt.parent).value, Past(s.store, s.calls[i].attempt.parent).value;
    SlotDepth(request, |h|);
    SlotDepth(request, |g|);
    assert s.calls[i].attempt != s.calls[top].attempt;
    PastCallNamed(s, i, plan, s.calls[top].attempt.parent);
  }

  lemma UnionAtMost<T>(a: set<T>, b: set<T>)
    ensures |a + b| <= |a| + |b|
  {
    assert a + b == a + (b - a);
  }

  /** In a state that satisfies the invariant, a request never holds more instances than its plan asked for. */
  lemma WithinPlan(s: State, request: string)
    requires Inv(s)
    ensures AllocatedFor(s.calls, request) != {} ==> PlanAt(s.store, request).Some?
    ensures PlanAt(s.store, request).Some? ==>
              |AllocatedFor(s.calls, request)| <= PlanAt(s.store, request).value.requestedCount
  {
    hide Inv, Past, Depth, TerminalChain, Slot, Ids;
    if i :| 0 <= i < |s.calls| && s.calls[i].attempt.request == request {
      var top := DeepestCall(s.calls, request);
      CallHistory(s, top);
      var h := Past(s.store, s.calls[top].attempt.parent).value;
      var bound := Ids(h) + s.calls[top].instances;
      forall i | 0 <= i < |s.calls| && s.calls[i].attempt.request == request
        ensures s.calls[i].instances <= bound
      {
        if i != top {
          OthersArePast(s, top, i);
        }
      }
      AllocatedWithin(s.calls, request, bound);
      SubsetSize(AllocatedFor(s.calls, request), bound);
      UnionAtMost(Ids(h), s.calls[top].instances);
    } else {
      AllocatedWithin(s.calls, request, {});
      assert AllocatedFor(s.calls, request) == {};
      PlanCount(s, request);
    }
  }

  lemma PlanCount(s: State, request: string)
    requires Inv(s)
    ensures PlanAt(s.store, request).Some? ==> 1 <= PlanAt(s.store, request).value.requestedCount <= HARD_MAX_COUNT
  {
    hide Inv;
    CoherentStore(s);
    if PlanAt(s.store, request).Some? {
      assert Justified(s.store, PlanKey(request), s.store[PlanKey(request)]);
    }
  }

  /** No interleaving of any number of clients, crashes, lost acknowledgements and lost replies over-allocates. */
  lemma NeverOverAllocates(states: seq<State>, events: seq<Event>, n: nat, request: string)
    requires IsRun(states, events) && n < |states|
    ensures var s := states[n];
            if PlanAt(s.store, request).None? then AllocatedFor(s.calls, request) == {}
            else |AllocatedFor(s.calls, request)| <= PlanAt(s.store, request).value.requestedCount
  {
    hide Inv, IsRun;
    RunKeeps(states, events, n);
    WithinPlan(states[n], request);
  }

  /** On every store a run can reach, a load of one moment succeeds: only a request without a plan is not found. */
  lemma ReachableLoads(states: seq<State>, events: seq<Event>, n: nat, request: string)
    requires IsRun(states, events) && n < |states| && ValidRequest(request)
    ensures var s, r := states[n].store, LoadFrom(Atomic(states[n].store), request);
            if PlanAt(s, request).None? then r == NoPlan(NotFound)
            else
              && r.Loaded? && r.error.None?
              && r.snapshot.receipt.plan == PlanAt(s, request).value
              && Faithful(Atomic(s), r.snapshot) && Ended(Atomic(s), r.snapshot)
              && (r.snapshot.receipt.attempts != [] ==> ValidReceipt(r.snapshot.receipt))
  {
    hide Inv, IsRun, Coherent, Faithful, Ended, ValidReceipt, LoadFrom;
    RunKeeps(states, events, n);
    CoherentStore(states[n]);
    LoadComplete(states[n].store, request);
  }

  // ---------------------------------------------------------------- one send per attempt

  /** Calls are only appended, and keep their attempt and permission. */
  ghost predicate CallsGrow(a: seq<Call>, b: seq<Call>) {
    |a| <= |b| && forall i | 0 <= i < |a| :: SameRequest(a[i], b[i])
  }

  lemma StepCalls(s: State, e: Event, t: State)
    requires Next(s, e, t)
    ensures CallsGrow(s.calls, t.calls)
  {
    hide Dispatchable, LoadFrom, ClaimOn, RecordOn, PrepareVerdict, HonestAnswer, ResponseOf, BuildFleetInput;
  }

  lemma {:induction false} RunCalls(states: seq<State>, events: seq<Event>, n: nat, m: nat)
    requires IsRun(states, events) && n <= m < |states|
    ensures CallsGrow(states[n].calls, states[m].calls)
    decreases m - n
  {
    hide Next, CallsGrow;
    if n < m {
      RunCalls(states, events, n, m - 1);
      StepCalls(states[m - 1], events[m - 1], states[m]);
      GrowTransitive(states[n].calls, states[m - 1].calls, states[m].calls);
    } else {
      GrowReflexive(states[n].calls);
    }
  }

  lemma GrowReflexive(a: seq<Call>)
    ensures CallsGrow(a, a)
  {
  }

  lemma GrowTransitive(a: seq<Call>, b: seq<Call>, c: seq<Call>)
    requires CallsGrow(a, b) && CallsGrow(b, c)
    ensures CallsGrow(a, c)
  {
  }

  /** The attempt for which event `n` of a run calls CreateFleet. */
  ghost predicate Sends(states: seq<State>, events: seq<Event>, n: nat, id: AttemptID)
    requires |states| == |events| + 1
  {
    n < |events| && events[n].CreateFleet? && PhaseOf(states[n], events[n].client).Won?
    && PhaseOf(states[n], events[n].client).job.ID() == id
  }

  lemma SendAppends(states: seq<State>, events: seq<Event>, n: nat, id: AttemptID)
    requires IsRun(states, events) && Sends(states, events, n, id)
    ensures |states[n + 1].calls| == |states[n].calls| + 1 && states[n + 1].calls[|states[n].calls|].attempt == id
  {
    hide BuildFleetInput;
    assert Next(states[n], events[n], states[n + 1]);
  }

  /** In every interleaving CreateFleet is called at most once for an attempt. */
  lemma SentOnce(states: seq<State>, events: seq<Event>, n: nat, m: nat, id: AttemptID)
    requires IsRun(states, events) && Sends(states, events, n, id) && Sends(states, events, m, id)
    ensures n == m
  {
    hide Inv, Next, PhaseInv, CallInv, HonestResponse, BuildFleetInput;
    if n > m {
      SentOnce(states, events, m, n, id);
    } else if n < m {
      SendAppends(states, events, n, id);
      SendAppends(states, events, m, id);
      RunCalls(states, events, n + 1, m);
      RunKeeps(states, events, m + 1);
      DistinctAttempts(states[m + 1]);
      RunOne(states, events, m);
    }
  }

  lemma RunOne(states: seq<State>, events: seq<Event>, m: nat)
    requires IsRun(states, events) && m < |events|
    ensures CallsGrow(states[m].calls, states[m + 1].calls)
  {
    hide Next;
    StepCalls(states[m], events[m], states[m + 1]);
  }

  lemma DistinctAttempts(s: State)
    requires Inv(s)
    ensures OneCallEach(s.calls)
  {
    hide StoreInv, ClientsInv, CallsHeld, Permitted, ResponsesInv;
  }

  /** At the moment of a send the shared store already holds the plan, the preparation and the dispatch claim of
      exactly this input digest and client token, and the claim is the sender's own acknowledged PUT. */
  lemma SentWithEvidence(states: seq<State>, events: seq<Event>, n: nat, id: AttemptID)
    requires IsRun(states, events) && Sends(states, events, n, id)
    ensures var s, call := states[n], states[n + 1].calls[|states[n].calls|];
            && |states[n + 1].calls| == |s.calls| + 1 && call.attempt == id && call.instances == {}
            && PlanAt(s.store, id.request) == Some(call.input.plan)
            && PreparedAt(s.store, id).Some? && ClaimAt(s.store, id).Some?
            && PreparedAt(s.store, id).value.input == InputDigest(call.input) == ClaimAt(s.store, id).value.input
            && PreparedAt(s.store, id).value.attempt.token == call.input.token == ClaimAt(s.store, id).value.token
            && PreparedAt(s.store, id).value.attempt.count == call.input.target
            && ClaimAt(s.store, id).value == ExpectedClaim(PreparedAt(s.store, id).value)
            && WroteIt(s, DispatchKey(id), call.op) && call.op.client == events[n].client
            && ResponseAt(s.store, id).None?
  {
    hide Inv, PreparedHeld;
    RunKeeps(states, events, n);
    var s, c := states[n], events[n].client;
    assert Next(s, events[n], states[n + 1]);
    ClientInv(s, c);
    var job := PhaseOf(s, c).job;
    HeldInput(s, job);
    WonClaimStored(s, job, PhaseOf(s, c).op);
    FirstCallInv(s, id, PhaseOf(s, c).op);
    if ResponseAt(s.store, id).Some? {
      AnsweredWasCalled(s, id);
    }
  }

  lemma FirstCallInv(s: State, id: AttemptID, op: Op)
    requires Inv(s) && WroteIt(s, DispatchKey(id), op) && NotYetSent(s.calls, op)
    ensures forall i | 0 <= i < |s.calls| :: s.calls[i].attempt != id
  {
    hide StoreInv, ClientsInv, CallInv, Permitted, ResponsesInv;
    FirstCall(s, id, op);
  }

  lemma WonClaimStored(s: State, job: Job, op: Op)
    requires Inv(s) && PreparedHeld(s, job) && WroteIt(s, DispatchKey(job.ID()), op)
    ensures ClaimAt(s.store, job.ID()) == Some(ExpectedClaim(job.prepared))
  {
    hide ClientsInv, CallsHeld, Permitted, ResponsesInv, OneCallEach, PreparedJustified;
    var k := DispatchKey(job.ID());
    assert Justified(s.store, k, s.store[k]);
  }

  /** A stored response answers a call that was made. */
  lemma AnsweredWasCalled(s: State, id: AttemptID)
    requires Inv(s) && ResponseAt(s.store, id).Some?
    ensures exists i :: 0 <= i < |s.calls| && s.calls[i].attempt == id
  {
    hide ClientsInv, CallsHeld, Permitted, OneCallEach, ResponseJustified;
    var k := AttemptKey(id, ResponseKind);
    assert Justified(s.store, k, s.store[k]);
    ResponseIdentity(s.store, id, ResponseAt(s.store, id).value);
    assert s.network[s.writer[k]] == Write(k, s.store[k]);
    assert HonestResponse(s.calls, ResponseAt(s.store, id).value);
  }

  lemma ResponseIdentity(s: Store, id: AttemptID, r: AttemptResponse)
    requires ResponseJustified(s, id, r)
    ensures r.attempt.id == id
  {
    hide ClaimJustified, ValidResponse;
  }

  // ---------------------------------------------------------------- a permission that was lost

  /** A PUT that was sent, for which nobody waits any more and no call was made: whatever becomes of it, it gives no
      permission. */
  ghost predicate Dropped(s: State, op: Op) {
    && op in s.network && NotYetSent(s.calls, op)
    && forall c | c in s.clients && (s.clients[c].ClaimSent? || s.clients[c].Won?) :: s.clients[c].op != op
  }

  lemma DroppedStays(s: State, e: Event, t: State, op: Op)
    requires Next(s, e, t) && Dropped(s, op)
    ensures Dropped(t, op)
  {
    hide Dispatchable, LoadFrom, ClaimOn, RecordOn, PrepareVerdict, HonestAnswer, ResponseOf, BuildFleetInput, Holds,
         Bounding;
  }

  lemma {:induction false} RunDropped(states: seq<State>, events: seq<Event>, n: nat, m: nat, op: Op)
    requires IsRun(states, events) && n <= m < |states| && Dropped(states[n], op)
    ensures Dropped(states[m], op)
    decreases m - n
  {
    hide Next, Dropped;
    if n < m {
      RunDropped(states, events, n, m - 1, op);
      DroppedStays(states[m - 1], events[m - 1], states[m], op);
    }
  }

  /** A claim whose acknowledgement was lost never authorises a send, whether it is stored already, is stored at any
      later moment, or never: no later state in which that PUT made the claim has a call for the attempt, and no later
      step sends one. */
  lemma LostClaimNeverSends(states: seq<State>, events: seq<Event>, n: nat, m: nat, id: AttemptID, op: Op)
    requires IsRun(states, events) && n <= m < |states| && Dropped(states[n], op)
             && WroteIt(states[m], DispatchKey(id), op)
    ensures forall i | 0 <= i < |states[m].calls| :: states[m].calls[i].attempt != id
    ensures !Sends(states, events, m, id)
  {
    hide Next, Inv;
    RunKeeps(states, events, m);
    RunDropped(states, events, n, m, op);
    var s := states[m];
    FirstCallInv(s, id, op);
    if Sends(states, events, m, id) {
      ClientInv(s, events[m].client);
    }
  }

  /** A client that gives up with its claim under way or won, but nothing sent, drops it for good, whatever storage has
      done or will do with it. */
  lemma AbandonDrops(s: State, c: nat, t: State)
    requires Inv(s) && Next(s, Abandon(c), t) && (PhaseOf(s, c).ClaimSent? || PhaseOf(s, c).Won?)
    ensures Dropped(t, PhaseOf(s, c).op)
  {
    hide CallsHeld, OneCallEach, ResponsesInv, NotYetSent, Coherent, Justified, GoodJob, Sound;
    var op := PhaseOf(s, c).op;
    assert PhaseInv(s, c, s.clients[c]);
    assert Unspent(c, s.clients[c], s.calls);
    forall d | d in t.clients && (t.clients[d].ClaimSent? || t.clients[d].Won?)
      ensures t.clients[d].op != op
    {
      assert Unspent(d, s.clients[d], s.calls);
    }
  }

  // ---------------------------------------------------------------- bounded histories lose nothing

  /** No record lies beyond the end of a chain: a slot there has no call. */
  lemma NothingBeyond(s: State, snapshot: Snapshot, i: nat)
    requires Inv(s) && i < |s.calls| && s.calls[i].attempt.request == snapshot.receipt.request
    requires snapshot.receipt == History(snapshot.receipt.plan, snapshot.receipt.attempts)
    requires TerminalChain(snapshot.receipt.plan, snapshot.receipt.attempts) && Ended(Atomic(s.store), snapshot)
    requires PlanAt(s.store, snapshot.receipt.request) == Some(snapshot.receipt.plan)
    ensures exists n :: 0 <= n < |snapshot.receipt.attempts| && s.calls[i].attempt == Slot(snapshot.receipt.request, n)
  {
    hide StoreInv, ClientsInv, Permitted, OneCallEach, ResponsesInv, Fits, TerminalChain, Past, Slot, CallInv;
    var request, attempts := snapshot.receipt.request, snapshot.receipt.attempts;
    CallHistory(s, i);
    CoherentStore(s);
    ChainSlots(snapshot.receipt.plan, attempts);
    var plan, g := PlanAt(s.store, request).value, Past(s.store, s.calls[i].attempt.parent).value;
    ChainSlots(plan, g);
    if |g| == |attempts| {
      assert CallInv(s, s.calls[i]);
      CalledIsPrepared(s, s.calls[i]);
      assert false;
    } else if |g| > |attempts| {
      PastResponses(s.store, s.calls[i].attempt.parent, |attempts|);
      AnsweredIsPrepared(s.store, g[|attempts|].id);
      assert false;
    }
  }

  lemma CalledIsPrepared(s: State, call: Call)
    requires CallInv(s, call)
    ensures AttemptKey(call.attempt, PreparedKind) in s.store
  {
  }

  lemma AnsweredIsPrepared(s: Store, id: AttemptID)
    requires Coherent(s) && ResponseAt(s, id).Some?
    ensures AttemptKey(id, PreparedKind) in s
  {
    hide PreparedJustified, ValidResponse;
    assert Justified(s, AttemptKey(id, ResponseKind), s[AttemptKey(id, ResponseKind)]);
  }

  /** Whenever a load of one moment shows only bounded attempts, the receipt names every instance that EC2 ever
      allocated for the request, and EC2 will allocate no other for those calls: the remainder a retry computes
      from it is real. */
  lemma BoundedNamesAll(states: seq<State>, events: seq<Event>, n: nat, request: string)
    requires IsRun(states, events) && n < |states| && ValidRequest(request)
    requires var r := LoadFrom(Atomic(states[n].store), request);
             r.Loaded? && r.error.None? && TerminalChain(r.snapshot.receipt.plan, r.snapshot.receipt.attempts)
    ensures var attempts := LoadFrom(Atomic(states[n].store), request).snapshot.receipt.attempts;
            && AllocatedFor(states[n].calls, request) <= Ids(attempts)
            && forall i | 0 <= i < |states[n].calls| && states[n].calls[i].attempt.request == request ::
                 states[n].calls[i].closed
  {
    hide Inv, IsRun, Coherent, Ended, ValidReceipt, LoadFrom, TerminalChain, Traced, Mirrors, HeaderValid, Past, Ids,
         Slot;
    var s := states[n];
    var snapshot := LoadFrom(Atomic(s.store), request).snapshot;
    ReachableLoads(states, events, n, request);
    RunKeeps(states, events, n);
    var plan, attempts := snapshot.receipt.plan, snapshot.receipt.attempts;
    LoadFaithful(Atomic(s.store), request);
    TracedIsPastAtomic(s.store, plan, attempts);
    forall i | 0 <= i < |s.calls| && s.calls[i].attempt.request == request
      ensures s.calls[i].instances <= Ids(attempts) && s.calls[i].closed
    {
      NothingBeyond(s, snapshot, i);
      PastCallNamed(s, i, plan, LastID(attempts));
    }
    AllocatedWithin(s.calls, request, Ids(attempts));
  }

  lemma TracedIsPastAtomic(s: Store, plan: LaunchPlan, attempts: seq<AttemptReceipt>)
    requires Traced(Atomic(s), plan, attempts) && TerminalChain(plan, attempts)
    ensures Past(s, LastID(attempts)) == Some(attempts)
  {
    TracedIsPast(Atomic(s), s, plan, attempts);
  }
}
