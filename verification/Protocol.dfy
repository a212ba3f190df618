/** Any number of clients sharing one store and one EC2 account, one atomic step at a time.
    A PUT is first sent, then applied by storage at any later moment or never; its sender may see the
    acknowledgement, lose it, or be gone. A client may abandon its work between any two steps and start again
    with any receipt at all. */
module Protocol {
  import opened Basics
  import opened LaunchTypes
  import opened Receipt
  import opened Fleet
  import opened Evidence
  import opened Ledger
  import opened Lineage

  /** One conditional PUT: its sender and a number that the sender never reuses. */
  datatype Op = Op(client: nat, number: nat)

  datatype Write = Write(key: Key, record: Record)

  /** What `Dispatch` was asked to send: a receipt whose last attempt is prepared, and that attempt's pins. */
  datatype Job = Job(receipt: BatchReceipt, prepared: PreparedAttempt)
  {
    ghost function ID(): AttemptID {
      prepared.attempt.id
    }
  }

  datatype Phase =
    | Idle
    | PlanSent(job: Job)
    | Preparing(job: Job, view: View)
    | PreparedSent(job: Job)
    | Claiming(job: Job, view: View)
    | ClaimSent(job: Job, op: Op)
    | Won(job: Job, op: Op)
    | Called(job: Job, op: Op)
    | Recording(job: Job, response: AttemptResponse, view: View)
    | ResponseSent(job: Job, response: AttemptResponse)

  /** One CreateFleet request as EC2 sees it; a closed call allocates nothing more. */
  datatype Call = Call(attempt: AttemptID, op: Op, input: FleetInput, instances: set<string>, closed: bool)

  datatype State = State(store: Store, writer: map<Key, Op>, network: map<Op, Write>, clients: map<nat, Phase>,
                         calls: seq<Call>)

  ghost function PhaseOf(s: State, c: nat): Phase {
    if c in s.clients then s.clients[c] else Idle
  }

  ghost function Enter(s: State, c: nat, p: Phase): State {
    s.(clients := s.clients[c := p])
  }

  ghost function Send(s: State, op: Op, key: Key, record: Record): State {
    s.(network := s.network[op := Write(key, record)])
  }

  ghost predicate Fresh(s: State, c: nat, op: Op) {
    op.client == c && op !in s.network
  }

  ghost predicate Holds(s: State, key: Key, record: Record) {
    key in s.store && s.store[key] == record
  }

  /** Everything `Dispatch` and the first checks of `Prepare` establish before the first write. */
  ghost predicate Dispatchable(job: Job, policy: string) {
    && job.receipt.attempts != []
    && MayPrepare(job.receipt, job.prepared, policy)
  }

  ghost predicate HasView(p: Phase) {
    p.Preparing? || p.Claiming? || p.Recording?
  }

  /** EC2 lists every allocated instance in an error-free answer, and allocates nothing when one single request
      ends in a definitive refusal. */
  ghost predicate Bounding(out: Option<FleetOutput>, err: Option<CallError>, sdkAttempts: nat) {
    (err.None? && out.Some?)
    || (err.Some? && FleetDiagnostic(err.value.code).definitive && out.None? && sdkAttempts == 1)
  }

  ghost predicate HonestAnswer(instances: set<string>, plan: LaunchPlan, out: Option<FleetOutput>,
                               err: Option<CallError>, sdkAttempts: nat) {
    && (err.None? && out.Some? ==> forall id | id in instances :: exists e :: e in Answered(plan, out) && e.id == id)
    && (err.Some? && FleetDiagnostic(err.value.code).definitive && out.None? && sdkAttempts == 1 ==> instances == {})
  }

  datatype Event =
    | Start(client: nat, job: Job, policy: string, op: Op)
    | Abandon(client: nat)
    | Apply(op: Op)
    | Read(client: nat, key: Key, failure: Option<LedgerError>)
    | ConfirmPlan(client: nat)
    | IssuePrepared(client: nat, op: Op)
    | ConfirmPrepared(client: nat)
    | IssueClaim(client: nat, policy: string, op: Op)
    | WinClaim(client: nat)
    | CreateFleet(client: nat)
    | Allocate(call: nat, instance: string)
    | Answer(client: nat, call: nat, out: Option<FleetOutput>, err: Option<CallError>, sdkAttempts: nat,
             response: AttemptResponse)
    | IssueResponse(client: nat, op: Op)

  ghost function PlanWrite(job: Job): Write {
    Write(PlanKey(job.receipt.request), PlanRecord(job.receipt.plan))
  }

  ghost function PreparedWrite(job: Job): Write {
    Write(AttemptKey(job.ID(), PreparedKind), PreparedRecord(job.prepared))
  }

  ghost function ClaimWrite(job: Job): Write {
    Write(AttemptKey(job.ID(), DispatchKind), ClaimRecord(ExpectedClaim(job.prepared)))
  }

  ghost function ResponseWrite(response: AttemptResponse): Write {
    Write(AttemptKey(response.attempt.id, ResponseKind), ResponseRecord(response))
  }

  ghost function Reply(s: State, key: Key, failure: Option<LedgerError>): Reading {
    if failure.Some? then Failed(failure.value)
    else if key in s.store then Found(s.store[key]) else Failed(NotFound)
  }

  ghost function AddReading(p: Phase, key: Key, r: Reading): Phase
    requires HasView(p)
  {
    p.(view := p.view.(known := p.view.known[key := r]))
  }

  ghost predicate Started(s: State, c: nat, job: Job, policy: string, op: Op, t: State) {
    && PhaseOf(s, c).Idle? && Dispatchable(job, policy) && Fresh(s, c, op)
    && t == Enter(Send(s, op, PlanWrite(job).key, PlanWrite(job).record), c, PlanSent(job))
  }

  ghost predicate Applied(s: State, op: Op, t: State) {
    && op in s.network && s.network[op].key !in s.store
    && t == s.(store := s.store[s.network[op].key := s.network[op].record], writer := s.writer[s.network[op].key := op])
  }

  /** A read answers from the store of its own moment, or fails; only real absence reads as absent. */
  ghost predicate HasRead(s: State, c: nat, key: Key, failure: Option<LedgerError>, t: State) {
    && HasView(PhaseOf(s, c)) && key !in PhaseOf(s, c).view.known && failure != Some(NotFound)
    && t == Enter(s, c, AddReading(PhaseOf(s, c), key, Reply(s, key, failure)))
  }

  /** An immutable record counts as stored when it is there, whether acknowledged or found by reconciling. */
  ghost predicate ConfirmedPlan(s: State, c: nat, t: State) {
    && PhaseOf(s, c).PlanSent?
    && var job := PhaseOf(s, c).job;
       Holds(s, PlanWrite(job).key, PlanWrite(job).record) && t == Enter(s, c, Preparing(job, UNREAD))
  }

  ghost predicate IssuedPrepared(s: State, c: nat, op: Op, t: State) {
    && PhaseOf(s, c).Preparing? && Fresh(s, c, op)
    && var job := PhaseOf(s, c).job;
       && job.receipt.attempts != []
       && PrepareVerdict(LoadFrom(PhaseOf(s, c).view, job.receipt.request), job.receipt, job.prepared).None?
       && t == Enter(Send(s, op, PreparedWrite(job).key, PreparedWrite(job).record), c, PreparedSent(job))
  }

  ghost predicate ConfirmedPrepared(s: State, c: nat, t: State) {
    && PhaseOf(s, c).PreparedSent?
    && var job := PhaseOf(s, c).job;
       Holds(s, PreparedWrite(job).key, PreparedWrite(job).record) && t == Enter(s, c, Claiming(job, UNREAD))
  }

  ghost predicate IssuedClaim(s: State, c: nat, policy: string, op: Op, t: State) {
    && PhaseOf(s, c).Claiming? && Fresh(s, c, op)
    && var job := PhaseOf(s, c).job;
       && ClaimOn(LoadFrom(PhaseOf(s, c).view, job.receipt.request), ExpectedClaim(job.prepared), policy).MayClaim?
       && t == Enter(Send(s, op, ClaimWrite(job).key, ClaimWrite(job).record), c, ClaimSent(job, op))
  }

  /** Only the acknowledgement of this very PUT gives permission to send; finding the claim never does. */
  ghost predicate WonClaim(s: State, c: nat, t: State) {
    && PhaseOf(s, c).ClaimSent?
    && var p := PhaseOf(s, c);
       && ClaimWrite(p.job).key in s.writer && s.writer[ClaimWrite(p.job).key] == p.op
       && t == Enter(s, c, Won(p.job, p.op))
  }

  ghost predicate SentFleet(s: State, c: nat, t: State) {
    && PhaseOf(s, c).Won?
    && var p := PhaseOf(s, c);
       && BuildFleetInput(p.job.receipt.plan, p.job.prepared.attempt).Some?
       && var input := BuildFleetInput(p.job.receipt.plan, p.job.prepared.attempt).value;
          t == Enter(s, c, Called(p.job, p.op)).(calls := s.calls + [Call(p.job.ID(), p.op, input, {}, false)])
  }

  ghost predicate AllocatedOne(s: State, i: nat, instance: string, t: State) {
    && i < |s.calls| && !s.calls[i].closed && |s.calls[i].instances| < s.calls[i].input.target
    && (forall j | 0 <= j < |s.calls| :: instance !in s.calls[j].instances)
    && t == s.(calls := s.calls[i := s.calls[i].(instances := s.calls[i].instances + {instance})])
  }

  ghost predicate GotAnswer(s: State, c: nat, i: nat, out: Option<FleetOutput>, err: Option<CallError>,
                            sdkAttempts: nat,
                            response: AttemptResponse, t: State) {
    && PhaseOf(s, c).Called? && i < |s.calls|
    && var p := PhaseOf(s, c);
       && s.calls[i].op == p.op
       && HonestAnswer(s.calls[i].instances, p.job.receipt.plan, out, err, sdkAttempts)
       && ResponseOf(p.job.prepared, out, err, sdkAttempts, response)
       && t == Enter(s, c, Recording(p.job, response, UNREAD))
               .(calls := s.calls[i := s.calls[i].(closed := s.calls[i].closed || Bounding(out, err, sdkAttempts))])
  }

  ghost predicate IssuedResponse(s: State, c: nat, op: Op, t: State) {
    && PhaseOf(s, c).Recording? && Fresh(s, c, op)
    && var p := PhaseOf(s, c);
       && RecordOn(LoadFrom(p.view, p.job.receipt.request), p.response).None?
       && t == Enter(Send(s, op, ResponseWrite(p.response).key, ResponseWrite(p.response).record), c,
                     ResponseSent(p.job, p.response))
  }

  ghost predicate Next(s: State, e: Event, t: State) {
    match e
    case Start(c, job, policy, op) => Started(s, c, job, policy, op, t)
    case Abandon(c) => t == Enter(s, c, Idle)
    case Apply(op) => Applied(s, op, t)
    case Read(c, key, failure) => HasRead(s, c, key, failure, t)
    case ConfirmPlan(c) => ConfirmedPlan(s, c, t)
    case IssuePrepared(c, op) => IssuedPrepared(s, c, op, t)
    case ConfirmPrepared(c) => ConfirmedPrepared(s, c, t)
    case IssueClaim(c, policy, op) => IssuedClaim(s, c, policy, op, t)
    case WinClaim(c) => WonClaim(s, c, t)
    case CreateFleet(c) => SentFleet(s, c, t)
    case Allocate(i, instance) => AllocatedOne(s, i, instance, t)
    case Answer(c, i, out, err, sdkAttempts, response) => GotAnswer(s, c, i, out, err, sdkAttempts, response, t)
    case IssueResponse(c, op) => IssuedResponse(s, c, op, t)
  }

  const INITIAL := State(map[], map[], map[], map[], [])

  /** A run: the states of `states` are linked by the events of `events`, from an empty store. */
  ghost predicate IsRun(states: seq<State>, events: seq<Event>) {
    && |states| == |events| + 1 && states[0] == INITIAL
    && forall n | 0 <= n < |events| :: Next(states[n], events[n], states[n + 1])
  }
}
