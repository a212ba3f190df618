/** The bound on allocation is attained: undisturbed, one client carries any valid first attempt through to its
    CreateFleet call, and EC2 may then allocate exactly what the plan asked for. */
module Attained {
  import opened Basics
  import opened LaunchTypes
  import opened Receipt
  import opened Fleet
  import opened Evidence
  import opened Ledger
  import opened Protocol
  import opened Lineage
  import opened Guarantees

  /** A run and the state it ends in. */
  datatype Trace = Trace(states: seq<State>, events: seq<Event>)
  {
    ghost predicate EndsIn(s: State) {
      IsRun(states, events) && states[|events|] == s
    }
  }

  lemma Then(r: Trace, s: State, e: Event, t: State) returns (q: Trace)
    requires r.EndsIn(s) && Next(s, e, t)
    ensures q.EndsIn(t) && q.events == r.events + [e]
  {
    hide Next;
    q := Trace(r.states + [t], r.events + [e]);
    forall n | 0 <= n < |q.events|
      ensures Next(q.states[n], q.events[n], q.states[n + 1])
    {
      if n < |r.events| {
        assert q.events[n] == r.events[n];
      }
    }
  }

  /** A client reads `keys` of the present store one by one. */
  lemma {:induction false} ReadAll(r: Trace, s: State, c: nat, keys: seq<Key>) returns (q: Trace, view: View)
    requires r.EndsIn(s) && c in s.clients && HasView(PhaseOf(s, c)) && NoDuplicates(keys)
    requires forall k | k in keys :: k !in PhaseOf(s, c).view.known
    ensures q.EndsIn(Enter(s, c, PhaseOf(s, c).(view := view)))
    ensures forall k | k in keys :: Look(view, k) == Reply(s, k, None)
    ensures forall k | k !in keys :: Look(view, k) == Look(PhaseOf(s, c).view, k)
    decreases |keys|
  {
    hide IsRun, Next, Reply;
    var p := PhaseOf(s, c);
    if keys == [] {
      q, view := r, p.view;
      assert Enter(s, c, p) == s;
    } else {
      var next := ReadFirst(r, s, c, keys);
      q, view := ReadAll(next, Enter(s, c, AddReading(p, keys[0], Reply(s, keys[0], None))), c, keys[1..]);
      ReadMerged(s, c, keys[0], view);
      assert keys == [keys[0]] + keys[1..];
    }
  }

  lemma ReadFirst(r: Trace, s: State, c: nat, keys: seq<Key>) returns (next: Trace)
    requires r.EndsIn(s) && c in s.clients && HasView(PhaseOf(s, c)) && NoDuplicates(keys) && keys != []
    requires forall k | k in keys :: k !in PhaseOf(s, c).view.known
    ensures var t := Enter(s, c, AddReading(PhaseOf(s, c), keys[0], Reply(s, keys[0], None)));
            && next.EndsIn(t) && NoDuplicates(keys[1..])
            && forall k | k in keys[1..] :: k !in PhaseOf(t, c).view.known && Reply(t, k, None) == Reply(s, k, None)
  {
    hide IsRun, Next;
    var k := keys[0];
    var t := Enter(s, c, AddReading(PhaseOf(s, c), k, Reply(s, k, None)));
    ReadStep(s, c, k, t);
    next := Then(r, s, Read(c, k, None), t);
  }

  lemma ReadMerged(s: State, c: nat, k: Key, view: View)
    requires c in s.clients && HasView(PhaseOf(s, c))
    ensures var p := PhaseOf(s, c);
            var t := Enter(s, c, AddReading(p, k, Reply(s, k, None)));
            Enter(t, c, PhaseOf(t, c).(view := view)) == Enter(s, c, p.(view := view))
  {
  }

  lemma ReadStep(s: State, c: nat, k: Key, t: State)
    requires HasRead(s, c, k, None, t)
    ensures Next(s, Read(c, k, None), t)
  {
  }

  /** The keys a load reads for one attempt. */
  ghost function Slots(id: AttemptID): seq<Key> {
    [AttemptKey(id, PreparedKind), AttemptKey(id, DispatchKind), AttemptKey(id, ResponseKind)]
  }

  ghost predicate FirstAttempt(job: Job, policy: string) {
    Dispatchable(job, policy) && |job.receipt.attempts| == 1
  }

  lemma FirstPlanLoads(v: View, plan: LaunchPlan)
    requires ValidPlan(plan) && ValidRequest(plan.request)
    requires Look(v, PlanKey(plan.request)) == Found(PlanRecord(plan))
    requires forall k | k in Slots(NextID(plan.request, None)) :: Look(v, k) == Failed(NotFound)
    ensures LoadFrom(v, plan.request) == Loaded(EmptySnapshot(plan), None)
  {
    hide ValidPlan;
    var id := NextID(plan.request, None);
    assert AttemptKey(id, PreparedKind) in Slots(id) && AttemptKey(id, DispatchKind) in Slots(id)
           && AttemptKey(id, ResponseKind) in Slots(id);
  }

  lemma FirstPreparedLoads(v: View, plan: LaunchPlan, p: PreparedAttempt)
    requires ValidPlan(plan) && ValidRequest(plan.request) && p.attempt.id == NextID(plan.request, None)
    requires ValidPrepared(History(plan, []), p)
    requires Look(v, PlanKey(plan.request)) == Found(PlanRecord(plan))
    requires Look(v, AttemptKey(p.attempt.id, PreparedKind)) == Found(PreparedRecord(p))
    requires forall k | k in Slots(p.attempt.id)[1..] + Slots(NextID(plan.request, Some(p.attempt.id))) ::
               Look(v, k) == Failed(NotFound)
    ensures LoadFrom(v, plan.request) == Loaded(WithAttempt(EmptySnapshot(plan), p.attempt.id, p, p.attempt), None)
  {
    hide ValidPlan, ValidPrepared;
    var id := p.attempt.id;
    var after := NextID(plan.request, Some(id));
    var keys := Slots(id)[1..] + Slots(after);
    assert keys[0] in keys && keys[1] in keys && keys[2] in keys && keys[3] in keys && keys[4] in keys;
    var s := EmptySnapshot(plan);
    assert LoadAttempt(v, s, id, p) == Loaded(WithAttempt(s, id, p, p.attempt), None);
    assert LoadChain(v, WithAttempt(s, id, p, p.attempt), Some(id), 1).error.None?;
  }

  lemma FirstFacts(job: Job, policy: string)
    requires FirstAttempt(job, policy)
    ensures var r, p := job.receipt, job.prepared;
            && r == History(r.plan, [p.attempt]) && p.attempt.id == NextID(r.plan.request, None)
            && ValidRequest(r.plan.request) && ValidPlan(r.plan) && r.plan.policy == policy
               && ValidPrepared(History(r.plan, []), p)
            && p.attempt.count == r.plan.requestedCount && BuildFleetInput(r.plan, p.attempt).Some?
            && BuildFleetInput(r.plan, p.attempt).value.target == r.plan.requestedCount
  {
    hide ValidPlan;
    var r := job.receipt;
    assert r.attempts[..0] == [] && r.attempts == [r.attempts[0]];
    assert Ids(r.attempts[..0]) == {};
  }

  const WRITER: nat := 0

  ghost function Number(n: nat): Op {
    Op(WRITER, n)
  }

  /** A client's PUT is applied by storage. */
  lemma Stored(r: Trace, s: State, op: Op) returns (q: Trace)
    requires r.EndsIn(s) && op in s.network && s.network[op].key !in s.store
    ensures var w := s.network[op];
            q.EndsIn(s.(store := s.store[w.key := w.record], writer := s.writer[w.key := op]))
            && q.events == r.events + [Apply(op)]
  {
    hide IsRun;
    var w := s.network[op];
    var t := s.(store := s.store[w.key := w.record], writer := s.writer[w.key := op]);
    assert Next(s, Apply(op), t);
    hide Next;
    q := Then(r, s, Apply(op), t);
  }

  ghost function Planned(job: Job): State {
    var w := PlanWrite(job);
    State(map[w.key := w.record], map[w.key := Number(0)], map[Number(0) := w], map[WRITER := Preparing(job, UNREAD)],
          [])
  }

  lemma ReachPlanned(job: Job, policy: string) returns (q: Trace)
    requires FirstAttempt(job, policy)
    ensures q.EndsIn(Planned(job))
  {
    hide Dispatchable;
    var w := PlanWrite(job);
    var start := Trace([INITIAL], []);
    var s1 := Enter(Send(INITIAL, Number(0), w.key, w.record), WRITER, PlanSent(job));
    assert Next(INITIAL, Start(WRITER, job, policy, Number(0)), s1);
    assert start.EndsIn(INITIAL);
    hide IsRun;
    q := Then(start, INITIAL, Start(WRITER, job, policy, Number(0)), s1);
    q := Stored(q, s1, Number(0));
    var s2 := s1.(store := map[w.key := w.record], writer := map[w.key := Number(0)]);
    assert s2.clients == map[WRITER := PlanSent(job)];
    assert Next(s2, ConfirmPlan(WRITER), Planned(job));
    q := Then(q, s2, ConfirmPlan(WRITER), Planned(job));
  }

  /** `s` after the client's write number `n` is sent and stored, and its sender has gone on to `phase`. */
  ghost function Published(s: State, n: nat, w: Write, phase: Phase): State {
    State(s.store[w.key := w.record], s.writer[w.key := Number(n)], s.network[Number(n) := w],
          s.clients[WRITER := phase], s.calls)
  }

  ghost function PreparedState(job: Job): State {
    Published(Planned(job), 1, PreparedWrite(job), Claiming(job, UNREAD))
  }

  ghost function ClaimedState(job: Job): State {
    Published(PreparedState(job), 2, ClaimWrite(job), Won(job, Number(2)))
  }

  /** One write of the client: issued in one step, stored in the next, confirmed in the third. */
  lemma Publishes(r: Trace, s: State, n: nat, w: Write, issue: Event, waiting: Phase, confirm: Event, phase: Phase)
    returns (q: Trace)
    requires r.EndsIn(s) && Number(n) !in s.network && w.key !in s.store
    requires Next(s, issue, Enter(Send(s, Number(n), w.key, w.record), WRITER, waiting))
    requires Next(Published(s, n, w, waiting), confirm, Published(s, n, w, phase))
    ensures q.EndsIn(Published(s, n, w, phase)) && q.events == r.events + [issue, Apply(Number(n)), confirm]
  {
    hide IsRun, Next;
    var sent := Enter(Send(s, Number(n), w.key, w.record), WRITER, waiting);
    q := Then(r, s, issue, sent);
    q := Stored(q, sent, Number(n));
    assert sent.(store := sent.store[w.key := w.record], writer := sent.writer[w.key := Number(n)])
           == Published(s, n, w, waiting);
    q := Then(q, Published(s, n, w, waiting), confirm, Published(s, n, w, phase));
  }

  lemma PreparedSteps(s: State, job: Job, policy: string, view: View)
    requires FirstAttempt(job, policy) && PhaseOf(s, WRITER) == Preparing(job, view) && Number(1) !in s.network
    requires LoadFrom(view, job.receipt.request) == Loaded(EmptySnapshot(job.receipt.plan), None)
    ensures var w := PreparedWrite(job);
            && Next(s, IssuePrepared(WRITER, Number(1)),
                    Enter(Send(s, Number(1), w.key, w.record), WRITER, PreparedSent(job)))
            && Next(Published(s, 1, w, PreparedSent(job)), ConfirmPrepared(WRITER),
                    Published(s, 1, w, Claiming(job, UNREAD)))
  {
    hide LoadFrom, FirstAttempt, PrepareVerdict, PreparedWrite;
    FirstVerdicts(job, policy);
    var w := PreparedWrite(job);
    Overwritten(s, 1, w, PreparedSent(job), Claiming(job, UNREAD));
    var t := Enter(Send(s, Number(1), w.key, w.record), WRITER, PreparedSent(job));
    assert IssuedPrepared(s, WRITER, Number(1), t);
    assert ConfirmedPrepared(Published(s, 1, w, PreparedSent(job)), WRITER, Published(s, 1, w, Claiming(job, UNREAD)));
  }

  lemma Overwritten(s: State, n: nat, w: Write, waiting: Phase, phase: Phase)
    ensures var t := Published(s, n, w, waiting);
            && Published(s, n, w, phase) == Enter(t, WRITER, phase) && PhaseOf(t, WRITER) == waiting
            && Holds(t, w.key, w.record) && w.key in t.writer && t.writer[w.key] == Number(n)
  {
    var t := Published(s, n, w, waiting);
    assert Published(s, n, w, phase).clients == t.clients[WRITER := phase];
  }

  /** What a client alone on its request is told. */
  lemma FirstVerdicts(job: Job, policy: string)
    requires FirstAttempt(job, policy)
    ensures var p, s := job.prepared, EmptySnapshot(job.receipt.plan);
            && job.receipt.attempts != []
            && PrepareVerdict(Loaded(s, None), job.receipt, p).None?
            && ClaimOn(Loaded(WithAttempt(s, p.attempt.id, p, p.attempt), None), ExpectedClaim(p), policy).MayClaim?
  {
    FirstFacts(job, policy);
    hide FirstAttempt, Dispatchable, ValidPlan, ValidPrepared;
  }

  lemma ClaimSteps(s: State, job: Job, policy: string, view: View)
    requires FirstAttempt(job, policy) && PhaseOf(s, WRITER) == Claiming(job, view) && Number(2) !in s.network
    requires var p := job.prepared;
             LoadFrom(view, job.receipt.request)
             == Loaded(WithAttempt(EmptySnapshot(job.receipt.plan), p.attempt.id, p, p.attempt), None)
    ensures var w := ClaimWrite(job);
            && Next(s, IssueClaim(WRITER, policy, Number(2)),
                    Enter(Send(s, Number(2), w.key, w.record), WRITER, ClaimSent(job, Number(2))))
            && Next(Published(s, 2, w, ClaimSent(job, Number(2))), WinClaim(WRITER),
                    Published(s, 2, w, Won(job, Number(2))))
  {
    hide LoadFrom, FirstAttempt, ClaimOn, ClaimWrite;
    FirstVerdicts(job, policy);
    var w := ClaimWrite(job);
    Overwritten(s, 2, w, ClaimSent(job, Number(2)), Won(job, Number(2)));
    assert IssuedClaim(s, WRITER, policy, Number(2),
                       Enter(Send(s, Number(2), w.key, w.record), WRITER, ClaimSent(job, Number(2))));
    assert WonClaim(Published(s, 2, w, ClaimSent(job, Number(2))), WRITER, Published(s, 2, w, Won(job, Number(2))));
  }

  lemma ReachPrepared(job: Job, policy: string) returns (q: Trace)
    requires FirstAttempt(job, policy)
    ensures q.EndsIn(PreparedState(job))
  {
    hide IsRun, Next, FirstAttempt, LoadFrom;
    q := ReachPlanned(job, policy);
    FirstFacts(job, policy);
    var s, view := Planned(job), UNREAD;
    q, view := ReadAll(q, s, WRITER, [PlanWrite(job).key] + Slots(job.ID()));
    PlannedView(job, policy, view);
    var t := Enter(s, WRITER, Preparing(job, view));
    PreparedSteps(t, job, policy, view);
    q := Publishes(q, t, 1, PreparedWrite(job), IssuePrepared(WRITER, Number(1)), PreparedSent(job),
                   ConfirmPrepared(WRITER), Claiming(job, UNREAD));
    assert Published(t, 1, PreparedWrite(job), Claiming(job, UNREAD)) == PreparedState(job);
  }

  lemma PlannedView(job: Job, policy: string, view: View)
    requires FirstAttempt(job, policy)
    requires forall k | k in [PlanWrite(job).key] + Slots(job.ID()) :: Look(view, k) == Reply(Planned(job), k, None)
    ensures LoadFrom(view, job.receipt.request) == Loaded(EmptySnapshot(job.receipt.plan), None)
  {
    hide FirstAttempt, LoadFrom;
    FirstFacts(job, policy);
    FirstPlanLoads(view, job.receipt.plan);
  }

  ghost function AfterFirst(job: Job): seq<Key> {
    [PlanWrite(job).key] + Slots(job.ID()) + Slots(NextID(job.receipt.request, Some(job.ID())))
  }

  lemma PreparedView(job: Job, policy: string, view: View)
    requires FirstAttempt(job, policy)
    requires forall k | k in AfterFirst(job) :: Look(view, k) == Reply(PreparedState(job), k, None)
    ensures var p := job.prepared;
            LoadFrom(view, job.receipt.request)
            == Loaded(WithAttempt(EmptySnapshot(job.receipt.plan), p.attempt.id, p, p.attempt), None)
  {
    hide FirstAttempt, LoadFrom;
    FirstFacts(job, policy);
    var id := job.ID();
    forall k | k in Slots(id)[1..] + Slots(NextID(job.receipt.request, Some(id)))
      ensures Look(view, k) == Failed(NotFound)
    {
      assert k in AfterFirst(job);
    }
    FirstPreparedLoads(view, job.receipt.plan, job.prepared);
  }

  lemma ReachClaimed(job: Job, policy: string) returns (q: Trace)
    requires FirstAttempt(job, policy)
    ensures q.EndsIn(ClaimedState(job))
  {
    hide IsRun, Next, FirstAttempt, LoadFrom;
    q := ReachPrepared(job, policy);
    FirstFacts(job, policy);
    var s, view := PreparedState(job), UNREAD;
    q, view := ReadAll(q, s, WRITER, AfterFirst(job));
    PreparedView(job, policy, view);
    var t := Enter(s, WRITER, Claiming(job, view));
    ClaimSteps(t, job, policy, view);
    q := Publishes(q, t, 2, ClaimWrite(job), IssueClaim(WRITER, policy, Number(2)), ClaimSent(job, Number(2)),
                   WinClaim(WRITER), Won(job, Number(2)));
    assert Published(t, 2, ClaimWrite(job), Won(job, Number(2))) == ClaimedState(job);
  }

  ghost function CalledState(job: Job, input: FleetInput, instances: set<string>): State {
    Enter(ClaimedState(job), WRITER,
          Called(job, Number(2))).(calls := [Call(job.ID(), Number(2), input, instances, false)])
  }

  /** EC2 allocates the instances of a call one at a time. */
  lemma {:induction false} AllocateAll(r: Trace, job: Job, input: FleetInput, before: set<string>,
                                       instances: set<string>) returns (q: Trace)
    requires r.EndsIn(CalledState(job, input, before)) && before !! instances && |before + instances| <= input.target
    ensures q.EndsIn(CalledState(job, input, before + instances))
    decreases |instances|
  {
    hide IsRun, Next, ClaimedState;
    if instances == {} {
      q := r;
      assert before + instances == before;
    } else {
      var id :| id in instances;
      AllocateStep(job, input, before, id, instances);
      q := Then(r, CalledState(job, input, before), Allocate(0, id), CalledState(job, input, before + {id}));
      assert before + {id} + (instances - {id}) == before + instances;
      q := AllocateAll(q, job, input, before + {id}, instances - {id});
    }
  }

  lemma AllocateStep(job: Job, input: FleetInput, before: set<string>, id: string, instances: set<string>)
    requires id in instances && before !! instances && |before + instances| <= input.target
    ensures Next(CalledState(job, input, before), Allocate(0, id), CalledState(job, input, before + {id}))
  {
    hide ClaimedState;
    SubsetSize(before + {id}, before + instances);
    assert |before + {id}| == |before| + 1;
  }

  /** The first attempt of a plan. */
  ghost function FirstJob(plan: LaunchPlan): Job
    requires ValidPlan(plan)
  {
    var a := InitialAttempt(plan);
    Job(History(plan, [a]), PreparedAttempt(plan.request, Digest(plan), InputDigest(BuildFleetInput(plan, a).value), a))
  }

  lemma FirstJobFits(plan: LaunchPlan)
    requires ValidPlan(plan)
    ensures FirstAttempt(FirstJob(plan), plan.policy)
  {
    var a, p := InitialAttempt(plan), FirstJob(plan).prepared;
    assert [a][..0] == [] && Ids([]) == {} && Elems<string>([]) == {};
    assert Fits(plan, [], a);
    ReceiptAppend(History(plan, []), a);
    assert ValidPrepared(History(plan, []), p);
    var r := FirstJob(plan).receipt;
    assert r.(attempts := r.attempts[..0]) == History(plan, []);
  }

  /** Any set of identities, as large as the plan's count and no larger, can be what a run allocates for a request:
      `NeverOverAllocates` bounds runs that do allocate, and no smaller bound holds. */
  lemma BoundAttained(plan: LaunchPlan, instances: set<string>) returns (q: Trace)
    requires ValidPlan(plan) && |instances| <= plan.requestedCount
    ensures IsRun(q.states, q.events)
    ensures AllocatedFor(q.states[|q.events|].calls, plan.request) == instances
    ensures PlanAt(q.states[|q.events|].store, plan.request) == Some(plan)
  {
    hide IsRun, Next, FirstAttempt, ValidPlan, BuildFleetInput;
    var job, policy := FirstJob(plan), plan.policy;
    FirstJobFits(plan);
    FirstFacts(job, policy);
    q := ReachClaimed(job, policy);
    var input := BuildFleetInput(job.receipt.plan, job.prepared.attempt).value;
    CallStep(job, policy, input);
    q := Then(q, ClaimedState(job), CreateFleet(WRITER), CalledState(job, input, {}));
    q := AllocateAll(q, job, input, {}, instances);
    assert {} + instances == instances;
    OneCall(job, input, instances);
  }

  lemma OneCall(job: Job, input: FleetInput, instances: set<string>)
    requires job.ID().request == job.receipt.request
    ensures var s := CalledState(job, input, instances);
            && AllocatedFor(s.calls, job.receipt.request) == instances
            && PlanAt(s.store, job.receipt.request) == Some(job.receipt.plan)
  {
    assert CalledState(job, input, instances).calls[..0] == [];
  }

  lemma CallStep(job: Job, policy: string, input: FleetInput)
    requires BuildFleetInput(job.receipt.plan, job.prepared.attempt) == Some(input)
    ensures Next(ClaimedState(job), CreateFleet(WRITER), CalledState(job, input, {}))
  {
    hide BuildFleetInput, PreparedWrite, ClaimWrite, PlanWrite;
    assert ClaimedState(job).calls == [] && PhaseOf(ClaimedState(job), WRITER) == Won(job, Number(2));
    assert SentFleet(ClaimedState(job), WRITER, CalledState(job, input, {}));
  }
}
