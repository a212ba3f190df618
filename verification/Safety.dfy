/** What every step of the launch protocol keeps. */
module Safety {
  import opened Basics
  import opened LaunchTypes
  import opened Receipt
  import opened Fleet
  import opened Evidence
  import opened Ledger
  import opened Lineage
  import opened Protocol

  ghost function DispatchKey(id: AttemptID): Key {
    AttemptKey(id, DispatchKind)
  }

  ghost predicate WroteIt(s: State, key: Key, op: Op) {
    key in s.writer && s.writer[key] == op
  }

  /** The store is coherent, each object has exactly one writer, and every PUT still in flight is justified. */
  ghost predicate StoreInv(s: State) {
    && Coherent(s.store)
    && s.writer.Keys == s.store.Keys
    && (forall k | k in s.store :: s.writer[k] in s.network && s.network[s.writer[k]] == Write(k, s.store[k]))
    && (forall op | op in s.network :: Justified(s.store, s.network[op].key, s.network[op].record))
  }

  ghost predicate GoodJob(job: Job) {
    job.receipt.attempts != [] && MayPrepare(job.receipt, job.prepared, job.receipt.plan.policy)
  }

  ghost predicate PlanHeld(s: State, job: Job) {
    GoodJob(job) && Holds(s, PlanWrite(job).key, PlanWrite(job).record)
  }

  ghost predicate PreparedHeld(s: State, job: Job) {
    PlanHeld(s, job) && Holds(s, PreparedWrite(job).key, PreparedWrite(job).record)
  }

  /** What a client knows at each point of a dispatch. */
  ghost predicate PhaseInv(s: State, c: nat, p: Phase) {
    match p
    case Idle => true
    case PlanSent(job) => GoodJob(job)
    case Preparing(job, view) => PlanHeld(s, job) && Sound(view, s.store)
    case PreparedSent(job) => PlanHeld(s, job)
    case Claiming(job, view) => PreparedHeld(s, job) && Sound(view, s.store)
    case ClaimSent(job, op) => PreparedHeld(s, job) && op.client == c && op in s.network
    && s.network[op] == ClaimWrite(job)
    case Won(job, op) => PreparedHeld(s, job) && op.client == c && WroteIt(s, DispatchKey(job.ID()), op)
    case Called(job, op) => PreparedHeld(s, job) && WroteIt(s, DispatchKey(job.ID()), op)
    case Recording(job, response, view) => Sound(view, s.store)
    case ResponseSent(job, response) => true
  }

  ghost predicate ClientsInv(s: State) {
    forall c | c in s.clients :: PhaseInv(s, c, s.clients[c])
  }

  /** A call was sent by the writer of the claim, for the stored preparation, and stays within its target. */
  ghost predicate CallInv(s: State, call: Call) {
    && WroteIt(s, DispatchKey(call.attempt), call.op)
    && PreparedAt(s.store, call.attempt).Some? && PlanAt(s.store, call.attempt.request).Some?
    && BuildFleetInput(PlanAt(s.store, call.attempt.request).value, PreparedAt(s.store, call.attempt).value.attempt)
    == Some(call.input)
    && |call.instances| <= call.input.target
  }

  ghost predicate CallsHeld(s: State) {
    forall i | 0 <= i < |s.calls| :: CallInv(s, s.calls[i])
  }

  /** No attempt was ever sent twice. */
  ghost predicate OneCallEach(calls: seq<Call>) {
    forall i, j | 0 <= i < j < |calls| :: calls[i].attempt != calls[j].attempt
  }

  ghost predicate NotYetSent(calls: seq<Call>, op: Op) {
    forall i | 0 <= i < |calls| :: calls[i].op != op
  }

  /** Permission still held by a phase: its own claim, for which no call exists yet. */
  ghost predicate Unspent(c: nat, p: Phase, calls: seq<Call>) {
    p.ClaimSent? || p.Won? ==> p.op.client == c && NotYetSent(calls, p.op)
  }

  ghost predicate Permitted(s: State) {
    forall c | c in s.clients :: Unspent(c, s.clients[c], s.calls)
  }

  /** A terminal response stands for a closed call and names everything that call allocated. */
  ghost predicate HonestResponse(calls: seq<Call>, r: AttemptResponse) {
    && (exists i :: 0 <= i < |calls| && calls[i].attempt == r.attempt.id)
    && (r.attempt.Terminal() ==>
          forall i | 0 <= i < |calls| && calls[i].attempt == r.attempt.id ::
            calls[i].closed && calls[i].instances <= Elems(r.attempt.instances))
  }

  ghost predicate ResponsesInv(s: State) {
    && (forall op | op in s.network && s.network[op].record.ResponseRecord? ::
         HonestResponse(s.calls, s.network[op].record.response))
    && (forall c | c in s.clients && s.clients[c].Recording? :: HonestResponse(s.calls, s.clients[c].response))
  }

  ghost predicate Inv(s: State) {
    StoreInv(s) && ClientsInv(s) && CallsHeld(s) && OneCallEach(s.calls) && Permitted(s) && ResponsesInv(s)
  }

  // ---------------------------------------------------------------- steps of one client

  /** Records, writers and pending writes only grow. */
  ghost predicate Grows(s: State, t: State) {
    && Extends(s.store, t.store)
    && (forall k | k in s.writer :: k in t.writer && t.writer[k] == s.writer[k])
    && (forall op | op in s.network :: op in t.network && t.network[op] == s.network[op])
  }

  lemma SamePhase(s: State, t: State, c: nat, p: Phase)
    requires PhaseInv(s, c, p) && Grows(s, t)
    ensures PhaseInv(t, c, p)
  {
    hide GoodJob, BuildFleetInput;
  }

  lemma SameCall(s: State, t: State, call: Call)
    requires CallInv(s, call) && Grows(s, t)
    ensures CallInv(t, call)
  {
    hide BuildFleetInput;
  }

  /** What clients and calls know is kept by growth, also for a client that enters a phase it may be in. */
  lemma GrowsKeeps(s: State, t: State)
    requires CallsHeld(s) && Grows(s, t) && t.calls == s.calls
    requires forall c | c in t.clients :: PhaseInv(s, c, t.clients[c])
    ensures ClientsInv(t) && CallsHeld(t)
  {
    hide PhaseInv, CallInv, Grows;
    forall c | c in t.clients
      ensures PhaseInv(t, c, t.clients[c])
    {
      SamePhase(s, t, c, t.clients[c]);
    }
    forall i | 0 <= i < |t.calls|
      ensures CallInv(t, t.calls[i])
    {
      SameCall(s, t, s.calls[i]);
    }
  }

  lemma EnterKeeps(s: State, c: nat, p: Phase)
    requires Inv(s) && PhaseInv(s, c, p) && Unspent(c, p, s.calls)
    requires p.Recording? ==> HonestResponse(s.calls, p.response)
    ensures Inv(Enter(s, c, p))
  {
    hide PhaseInv, CallInv, CallsHeld, HonestResponse, Unspent, OneCallEach, Coherent, Justified;
    GrowsKeeps(s, Enter(s, c, p));
  }

  lemma ClientInv(s: State, c: nat)
    requires Inv(s)
    ensures PhaseInv(s, c, PhaseOf(s, c)) && Unspent(c, PhaseOf(s, c), s.calls)
    ensures PhaseOf(s, c).Recording? ==> HonestResponse(s.calls, PhaseOf(s, c).response)
  {
    hide CallsHeld, HonestResponse, OneCallEach, StoreInv, GoodJob, Sound, NotYetSent;
  }

  lemma SendKeeps(s: State, c: nat, op: Op, key: Key, record: Record)
    requires Inv(s) && Fresh(s, c, op) && Justified(s.store, key, record)
    requires record.ResponseRecord? ==> HonestResponse(s.calls, record.response)
    ensures Inv(Send(s, op, key, record))
    ensures NotYetSent(s.calls, op)
  {
    hide PhaseInv, HonestResponse, Unspent, OneCallEach, Coherent, Justified, BuildFleetInput;
    var t := Send(s, op, key, record);
    GrowsKeeps(s, t);
    forall i | 0 <= i < |s.calls|
      ensures s.calls[i].op != op
    {
      assert CallInv(s, s.calls[i]);
    }
  }

  lemma SameStore(s: State, t: State)
    requires StoreInv(s) && t.store == s.store && t.writer == s.writer && t.network == s.network
    ensures StoreInv(t) && Grows(s, t)
  {
    hide Coherent, Justified;
  }

  lemma ApplyStore(s: State, op: Op, t: State)
    requires StoreInv(s) && Applied(s, op, t)
    ensures StoreInv(t) && Grows(s, t)
  {
    hide Justified, Coherent, Extends;
    AddJustified(s.store, s.network[op].key, s.network[op].record);
    forall o | o in t.network
      ensures Justified(t.store, t.network[o].key, t.network[o].record)
    {
      JustifiedExtends(s.store, t.store, s.network[o].key, s.network[o].record);
    }
  }

  lemma ApplyKeeps(s: State, op: Op, t: State)
    requires Inv(s) && Applied(s, op, t)
    ensures Inv(t)
  {
    hide PhaseInv, CallsHeld, HonestResponse, Unspent, OneCallEach, StoreInv, Grows;
    ApplyStore(s, op, t);
    GrowsKeeps(s, t);
  }

  lemma ReadSound(s: State, view: View, key: Key, failure: Option<LedgerError>)
    requires Sound(view, s.store)
    ensures Sound(view.(known := view.known[key := Reply(s, key, failure)]), s.store)
  {
  }

  lemma ReadKeeps(s: State, c: nat, key: Key, failure: Option<LedgerError>, t: State)
    requires Inv(s) && HasRead(s, c, key, failure, t)
    ensures Inv(t)
  {
    hide Inv, GoodJob, HonestResponse, Sound, Reply;
    var p := PhaseOf(s, c);
    ClientInv(s, c);
    ReadSound(s, p.view, key, failure);
    EnterKeeps(s, c, AddReading(p, key, Reply(s, key, failure)));
  }

  /** Loading before the prepared write shows that the receipt's history is the bounded history of the store. */
  lemma PrepareJustified(v: View, s: Store, r: BatchReceipt, p: PreparedAttempt)
    requires Sound(v, s) && r.attempts != [] && MayPrepare(r, p, r.plan.policy)
    requires PlanAt(s, r.request) == Some(r.plan)
    requires PrepareVerdict(LoadFrom(v, r.request), r, p).None?
    ensures Justified(s, AttemptKey(p.attempt.id, PreparedKind), PreparedRecord(p))
  {
    hide LoadFrom, MayPrepare, ValidPrepared, Traced, TerminalChain, Past, Fits, Faithful, Ended, ValidReceipt,
         ValidPlan;
    var prior := r.attempts[..|r.attempts| - 1];
    var snapshot := LoadFrom(v, r.request).snapshot;
    LoadFaithful(v, r.request);
    ReceiptHistory(r, p);
    SharedPrior(v, snapshot, r, p);
    TracedIsPast(v, s, r.plan, prior);
    FitsParent(r.plan, prior, p.attempt);
  }

  lemma SharedPrior(v: View, snapshot: Snapshot, r: BatchReceipt, p: PreparedAttempt)
    requires r.attempts != [] && PrepareVerdict(Loaded(snapshot, None), r, p).None?
    requires r.digest == Digest(r.plan) && Faithful(v, snapshot)
    ensures Traced(v, r.plan, r.attempts[..|r.attempts| - 1])
  {
    hide RecordsFit, Mirrors, HeaderValid;
  }

  lemma ReceiptHistory(r: BatchReceipt, p: PreparedAttempt)
    requires r.attempts != [] && MayPrepare(r, p, r.plan.policy)
    ensures var prior := r.attempts[..|r.attempts| - 1];
            && r == History(r.plan, r.attempts) && ValidPrepared(History(r.plan, prior), p)
            && TerminalChain(r.plan, prior) && Fits(r.plan, prior, p.attempt) && |prior| < MAX_LAUNCH_ATTEMPTS
            && p.attempt == r.attempts[|r.attempts| - 1]
  {
    hide Fits, BuildFleetInput;
  }

  lemma StartKeeps(s: State, c: nat, job: Job, policy: string, op: Op, t: State)
    requires Inv(s) && Started(s, c, job, policy, op, t)
    ensures Inv(t)
  {
    hide Inv, MayPrepare, ValidPlan, GoodJob, Justified;
    StartJustified(s.store, job, policy);
    SendKeeps(s, c, op, PlanWrite(job).key, PlanWrite(job).record);
    EnterKeeps(Send(s, op, PlanWrite(job).key, PlanWrite(job).record), c, PlanSent(job));
  }

  lemma StartJustified(s: Store, job: Job, policy: string)
    requires Dispatchable(job, policy)
    ensures GoodJob(job) && Justified(s, PlanWrite(job).key, PlanWrite(job).record)
  {
    hide ValidPrepared, ValidPlan, TerminalChain, Fits;
  }

  lemma IssuePreparedKeeps(s: State, c: nat, op: Op, t: State)
    requires Inv(s) && IssuedPrepared(s, c, op, t)
    ensures Inv(t)
  {
    hide Inv, MayPrepare, LoadFrom, Justified, PrepareVerdict, Sound, GoodJob;
    var p := PhaseOf(s, c);
    var job := p.job;
    ClientInv(s, c);
    PlanHeldAt(s, job);
    PrepareJustified(p.view, s.store, job.receipt, job.prepared);
    SendKeeps(s, c, op, PreparedWrite(job).key, PreparedWrite(job).record);
    EnterKeeps(Send(s, op, PreparedWrite(job).key, PreparedWrite(job).record), c, PreparedSent(job));
  }

  lemma PlanHeldAt(s: State, job: Job)
    requires PlanHeld(s, job)
    ensures PlanAt(s.store, job.receipt.request) == Some(job.receipt.plan)
    ensures job.receipt.attempts != [] && MayPrepare(job.receipt, job.prepared, job.receipt.plan.policy)
    ensures job.ID().request == job.receipt.request
  {
    hide MayPrepare, Fits, TerminalChain, ValidPrepared;
    ReceiptHistory(job.receipt, job.prepared);
    FitsParent(job.receipt.plan, job.receipt.attempts[..|job.receipt.attempts| - 1], job.prepared.attempt);
  }

  lemma ConfirmKeeps(s: State, c: nat, t: State)
    requires Inv(s) && (ConfirmedPlan(s, c, t) || ConfirmedPrepared(s, c, t))
    ensures Inv(t)
  {
    hide Inv, GoodJob;
    ClientInv(s, c);
    EnterKeeps(s, c, t.clients[c]);
  }

  lemma AbandonKeeps(s: State, c: nat)
    requires Inv(s)
    ensures Inv(Enter(s, c, Idle))
  {
    hide Inv;
    EnterKeeps(s, c, Idle);
  }

  lemma IssueClaimKeeps(s: State, c: nat, policy: string, op: Op, t: State)
    requires Inv(s) && IssuedClaim(s, c, policy, op, t)
    ensures Inv(t)
  {
    hide Inv, LoadFrom, Justified, ClaimOn, GoodJob, NotYetSent;
    var job := PhaseOf(s, c).job;
    ClientInv(s, c);
    ClaimIsJustified(s, job);
    SendKeeps(s, c, op, ClaimWrite(job).key, ClaimWrite(job).record);
    EnterKeeps(Send(s, op, ClaimWrite(job).key, ClaimWrite(job).record), c, ClaimSent(job, op));
  }

  lemma ClaimIsJustified(s: State, job: Job)
    requires Inv(s) && PreparedHeld(s, job)
    ensures Justified(s.store, ClaimWrite(job).key, ClaimWrite(job).record)
  {
    hide PreparedJustified, GoodJob, ClientsInv, CallsHeld, Permitted, ResponsesInv, OneCallEach;
    assert Justified(s.store, PreparedWrite(job).key, s.store[PreparedWrite(job).key]);
  }

  lemma WinKeeps(s: State, c: nat, t: State)
    requires Inv(s) && WonClaim(s, c, t)
    ensures Inv(t)
  {
    hide Inv, GoodJob, NotYetSent;
    ClientInv(s, c);
    EnterKeeps(s, c, t.clients[c]);
  }

  // ---------------------------------------------------------------- steps that involve EC2

  /** The stored preparation of a permission holder is its own, and so is the exact input it sends. */
  lemma HeldInput(s: State, job: Job)
    requires PreparedHeld(s, job)
    ensures PreparedAt(s.store, job.ID()) == Some(job.prepared)
            && PlanAt(s.store, job.ID().request) == Some(job.receipt.plan)
    ensures BuildFleetInput(job.receipt.plan, job.prepared.attempt).Some?
    ensures BuildFleetInput(job.receipt.plan, job.prepared.attempt).value.target >= 1
    ensures job.prepared.input == InputDigest(BuildFleetInput(job.receipt.plan, job.prepared.attempt).value)
    ensures job.prepared.attempt.state == Prepared && job.prepared.attempt.fleet == ""
            && job.prepared.attempt.instances == []
            && job.prepared.attempt.errors == [] && job.prepared.attempt.count >= 1
               && job.prepared.digest == Digest(job.receipt.plan)
  {
    hide MayPrepare, TerminalChain, ValidReceipt, Fits;
    PlanHeldAt(s, job);
    ReceiptHistory(job.receipt, job.prepared);
  }

  /** The first call of an attempt: another would have been sent by the writer of the same claim, this very client. */
  lemma FirstCall(s: State, id: AttemptID, op: Op)
    requires CallsHeld(s) && WroteIt(s, DispatchKey(id), op) && NotYetSent(s.calls, op)
    ensures forall i | 0 <= i < |s.calls| :: s.calls[i].attempt != id
  {
    forall i | 0 <= i < |s.calls|
      ensures s.calls[i].attempt != id
    {
      assert CallInv(s, s.calls[i]);
    }
    hide BuildFleetInput;
  }

  lemma CallAdded(s: State, t: State, call: Call)
    requires CallsHeld(s) && OneCallEach(s.calls) && ResponsesInv(s)
    requires t == s.(clients := t.clients, calls := s.calls + [call]) && CallInv(s, call)
    requires forall i | 0 <= i < |s.calls| :: s.calls[i].attempt != call.attempt
    requires forall c | c in t.clients && t.clients[c].Recording? :: c in s.clients && t.clients[c] == s.clients[c]
    ensures CallsHeld(t) && OneCallEach(t.calls) && ResponsesInv(t)
  {
    hide BuildFleetInput;
    forall i | 0 <= i < |t.calls|
      ensures CallInv(t, t.calls[i])
    {
      assert CallInv(s, t.calls[i]);
    }
    hide CallInv;
    forall r | HonestResponse(s.calls, r)
      ensures HonestResponse(t.calls, r)
    {
      var i :| 0 <= i < |s.calls| && s.calls[i].attempt == r.attempt.id;
      assert t.calls[i] == s.calls[i];
    }
  }

  lemma SendFleetKeeps(s: State, c: nat, t: State)
    requires Inv(s) && SentFleet(s, c, t)
    ensures Inv(t)
  {
    hide StoreInv, GoodJob, BuildFleetInput, HonestResponse, NotYetSent, PreparedHeld, CallsHeld, OneCallEach,
         ResponsesInv;
    var p := PhaseOf(s, c);
    ClientInv(s, c);
    HeldInput(s, p.job);
    FirstCall(s, p.job.ID(), p.op);
    var call := t.calls[|s.calls|];
    CallAdded(s, t, call);
    SameStore(s, t);
    forall d | d in t.clients
      ensures PhaseInv(t, d, t.clients[d]) && Unspent(d, t.clients[d], t.calls)
    {
      SamePhase(s, t, d, t.clients[d]);
      if d != c {
        CallOfOther(s.calls, call, d, t.clients[d]);
      }
    }
  }

  lemma CallOfOther(calls: seq<Call>, call: Call, d: nat, p: Phase)
    requires Unspent(d, p, calls) && call.op.client != d
    ensures Unspent(d, p, calls + [call])
  {
  }

  lemma {:induction false} UnionSize<T>(a: set<T>, x: T)
    ensures |a + {x}| <= |a| + 1
  {
    if x in a {
      assert a + {x} == a;
    }
  }

  /** A call that changed in place keeps its attempt, its PUT and its input. */
  ghost predicate SameRequest(a: Call, b: Call) {
    a.attempt == b.attempt && a.op == b.op && a.input == b.input
  }

  lemma CallChanged(s: State, t: State, i: nat, b: Call)
    requires CallsHeld(s) && OneCallEach(s.calls) && Permitted(s) && i < |s.calls|
    requires t.calls == s.calls[i := b] && SameRequest(s.calls[i], b) && |b.instances| <= b.input.target
    requires t.store == s.store && t.writer == s.writer
    ensures CallsHeld(t) && OneCallEach(t.calls)
    ensures forall c | c in s.clients :: Unspent(c, s.clients[c], t.calls)
  {
    hide BuildFleetInput;
    forall k | 0 <= k < |t.calls|
      ensures CallInv(t, t.calls[k])
    {
      assert CallInv(s, s.calls[k]);
    }
    forall c | c in s.clients
      ensures Unspent(c, s.clients[c], t.calls)
    {
      assert Unspent(c, s.clients[c], s.calls);
    }
  }

  /** Recorded responses stay honest: a call they bound was closed, and a closed call changes no more. */
  lemma StillHonest(calls: seq<Call>, i: nat, b: Call, r: AttemptResponse)
    requires i < |calls| && b.attempt == calls[i].attempt && (calls[i].closed ==> b == calls[i])
    requires HonestResponse(calls, r)
    ensures HonestResponse(calls[i := b], r)
  {
    var k :| 0 <= k < |calls| && calls[k].attempt == r.attempt.id;
    assert calls[i := b][k].attempt == r.attempt.id;
  }

  lemma AllocateKeeps(s: State, i: nat, instance: string, t: State)
    requires Inv(s) && AllocatedOne(s, i, instance, t)
    ensures Inv(t)
  {
    hide StoreInv, HonestResponse, OneCallEach, PhaseInv, Unspent, CallsHeld, Grows;
    var b := t.calls[i];
    UnionSize(s.calls[i].instances, instance);
    CallChanged(s, t, i, b);
    SameStore(s, t);
    forall d | d in t.clients
      ensures PhaseInv(t, d, t.clients[d])
    {
      SamePhase(s, t, d, t.clients[d]);
    }
    forall r | HonestResponse(s.calls, r)
      ensures HonestResponse(t.calls, r)
    {
      StillHonest(s.calls, i, b, r);
    }
  }

  /** The PUT that a client was acknowledged for identifies its call. */
  lemma OwnCall(s: State, i: nat, id: AttemptID, op: Op)
    requires StoreInv(s) && CallsHeld(s) && i < |s.calls| && s.calls[i].op == op && WroteIt(s, DispatchKey(id), op)
    ensures s.calls[i].attempt == id
  {
    hide BuildFleetInput, Justified, Coherent;
    assert CallInv(s, s.calls[i]);
  }

  /** A complete answer lists all that the call allocated, and a definitive refusal of one request means nothing. */
  lemma AnswerBounds(p: PreparedAttempt, instances: set<string>, out: Option<FleetOutput>, err: Option<CallError>,
                     sdkAttempts: nat, response: AttemptResponse)
    requires HonestAnswer(instances, p.digest.plan, out, err, sdkAttempts)
    requires ResponseOf(p, out, err, sdkAttempts, response)
    ensures response.attempt.id == p.attempt.id
    ensures response.attempt.Terminal() ==>
              Bounding(out, err, sdkAttempts) && instances <= Elems(response.attempt.instances)
  {
    hide ErrorsOf, FleetOf, ErrorClean, GroupClean, Entries, ChoiceOf, FleetDiagnostic, ValidInstanceID, ValidFleetID;
    var plan := p.digest.plan;
    var normal :| Normalized(plan, p.attempt, out, err, normal, response.workers)
                  && response == AttemptResponse(p.request, p.digest, p.input, Downgraded(normal, sdkAttempts),
                                                 response.workers);
    if response.attempt.state == Complete {
      forall id | id in instances
        ensures id in Elems(response.attempt.instances)
      {
        var e :| e in Answered(plan, out) && e.id == id;
        assert id in ListedIds(Answered(plan, out));
      }
    }
  }

  lemma AnswerKeeps(s: State, c: nat, i: nat, out: Option<FleetOutput>, err: Option<CallError>, sdkAttempts: nat,
                    response: AttemptResponse, t: State)
    requires Inv(s) && GotAnswer(s, c, i, out, err, sdkAttempts, response, t)
    ensures Inv(t)
  {
    hide StoreInv, HonestResponse, OneCallEach, PreparedHeld, NotYetSent, CallsHeld, Grows, ResponseOf, HonestAnswer,
         Bounding, Sound, BuildFleetInput, WroteIt;
    var p := PhaseOf(s, c);
    ClientInv(s, c);
    HeldInput(s, p.job);
    OwnCall(s, i, p.job.ID(), p.op);
    AnswerBounds(p.job.prepared, s.calls[i].instances, out, err, sdkAttempts, response);
    CallInBounds(s, i);
    CallChanged(s, t, i, t.calls[i]);
    SameStore(s, t);
    AnswerHonest(s.calls, i, t.calls[i], response);
    NothingRead(t.store);
    forall d | d in t.clients
      ensures PhaseInv(t, d, t.clients[d]) && Unspent(d, t.clients[d], t.calls)
    {
      SamePhase(s, t, d, t.clients[d]);
    }
    forall r | HonestResponse(s.calls, r)
      ensures HonestResponse(t.calls, r)
    {
      StillHonest(s.calls, i, t.calls[i], r);
    }
  }

  lemma CallInBounds(s: State, i: nat)
    requires CallsHeld(s) && i < |s.calls|
    ensures |s.calls[i].instances| <= s.calls[i].input.target
  {
    assert CallInv(s, s.calls[i]);
  }

  lemma NothingRead(s: Store)
    ensures Sound(UNREAD, s)
  {
  }

  lemma AnswerHonest(calls: seq<Call>, i: nat, b: Call, r: AttemptResponse)
    requires OneCallEach(calls) && i < |calls| && b.attempt == calls[i].attempt == r.attempt.id
    requires r.attempt.Terminal() ==> b.closed && b.instances <= Elems(r.attempt.instances)
    ensures HonestResponse(calls[i := b], r)
  {
    assert calls[i := b][i].attempt == r.attempt.id;
  }

  // ---------------------------------------------------------------- recording a response

  /** Cutting a recorded chain at one of its attempts leaves the history that this attempt was prepared on. */
  lemma {:induction false} CutTraced(v: View, plan: LaunchPlan, attempts: seq<AttemptReceipt>, id: AttemptID)
    requires Traced(v, plan, attempts) && id in AttemptIDs(attempts)
    ensures UpTo(attempts, id) <= attempts && |UpTo(attempts, id)| < |attempts|
    ensures var prior := UpTo(attempts, id);
            && attempts[|prior|].id == id && Traced(v, plan, prior)
            && id == NextID(plan.request, LastID(prior)) && RecordsFit(v, plan, prior, attempts[|prior|])
  {
    hide RecordsFit;
    var init, last := attempts[..|attempts| - 1], attempts[|attempts| - 1];
    assert attempts == init + [last];
    if id in AttemptIDs(init) {
      CutTraced(v, plan, init, id);
      UpToAppend(init, last, id);
    } else {
      UpToAbsent(init, last, id);
    }
  }

  lemma {:induction false} UpToAppend(init: seq<AttemptReceipt>, last: AttemptReceipt, id: AttemptID)
    requires id in AttemptIDs(init)
    ensures UpTo(init + [last], id) == UpTo(init, id)
  {
    if init[0].id != id {
      IDsTail(init, id);
      UpToAppend(init[1..], last, id);
      assert (init + [last])[1..] == init[1..] + [last];
    }
  }

  lemma {:induction false} UpToAbsent(init: seq<AttemptReceipt>, last: AttemptReceipt, id: AttemptID)
    requires id !in AttemptIDs(init) && last.id == id
    ensures UpTo(init + [last], id) == init
  {
    if init != [] {
      IDsTail(init, id);
      assert (init + [last])[1..] == init[1..] + [last];
      UpToAbsent(init[1..], last, id);
    }
  }

  lemma {:induction false} IDsTail(attempts: seq<AttemptReceipt>, id: AttemptID)
    requires attempts != []
    ensures id in AttemptIDs(attempts) <==> attempts[0].id == id || id in AttemptIDs(attempts[1..])
  {
    var init := attempts[..|attempts| - 1];
    if init != [] {
      IDsTail(init, id);
      assert attempts[1..][..|attempts| - 2] == init[1..];
    }
  }

  /** What a faithful load saw of one attempt is what the store holds about it. */
  lemma CutIsPast(v: View, s: Store, snapshot: Snapshot, id: AttemptID)
    requires Sound(v, s) && Faithful(v, snapshot) && id in snapshot.prepared && id in snapshot.claims
    requires ReadPlan(v, snapshot.receipt.request) == Ok(snapshot.receipt.plan)
    ensures id.request == snapshot.receipt.request && PlanAt(s, id.request) == Some(snapshot.receipt.plan)
    ensures PreparedAt(s, id) == Some(snapshot.prepared[id]) && ClaimAt(s, id).Some?
    ensures Past(s, id.parent) == Some(UpTo(snapshot.receipt.attempts, id))
  {
    hide ValidPrepared, ValidResponse, Traced, Past, HeaderValid, Fits, TerminalChain;
    var plan, attempts := snapshot.receipt.plan, snapshot.receipt.attempts;
    CutTraced(v, plan, attempts, id);
    TracedDepth(v, plan, attempts);
    var prior := UpTo(attempts, id);
    SoundLook(v, s, PlanKey(plan.request));
    SoundLook(v, s, AttemptKey(id, PreparedKind));
    SoundLook(v, s, AttemptKey(id, DispatchKind));
    PreparedFits(History(plan, prior), ReadPrepared(v, id).value);
    TracedIsPast(v, s, plan, prior);
  }

  /** A response that passes the checks after a load is justified by the records it answers. */
  lemma RecordJustified(v: View, s: Store, request: string, r: AttemptResponse)
    requires Coherent(s) && Sound(v, s) && RecordOn(LoadFrom(v, request), r).None?
    ensures Justified(s, AttemptKey(r.attempt.id, ResponseKind), ResponseRecord(r))
  {
    hide LoadFrom, ValidResponse, PreparedJustified, Past, Faithful, Ended, ValidPlan, ValidReceipt;
    var snapshot := LoadFrom(v, request).snapshot;
    LoadFaithful(v, request);
    FaithfulHeader(v, snapshot);
    CutIsPast(v, s, snapshot, r.attempt.id);
    var k := AttemptKey(r.attempt.id, DispatchKind);
    assert Justified(s, k, s[k]);
  }

  lemma FaithfulHeader(v: View, snapshot: Snapshot)
    requires Faithful(v, snapshot)
    ensures snapshot.receipt == History(snapshot.receipt.plan, snapshot.receipt.attempts)
  {
  }

  lemma IssueResponseKeeps(s: State, c: nat, op: Op, t: State)
    requires Inv(s) && IssuedResponse(s, c, op, t)
    ensures Inv(t)
  {
    hide Inv, LoadFrom, Justified, RecordOn, HonestResponse, Sound, Coherent;
    var p := PhaseOf(s, c);
    ClientInv(s, c);
    CoherentStore(s);
    RecordJustified(p.view, s.store, p.job.receipt.request, p.response);
    SendKeeps(s, c, op, ResponseWrite(p.response).key, ResponseWrite(p.response).record);
    EnterKeeps(Send(s, op, ResponseWrite(p.response).key, ResponseWrite(p.response).record), c, t.clients[c]);
  }

  lemma CoherentStore(s: State)
    requires Inv(s)
    ensures Coherent(s.store)
  {
    hide Coherent, ClientsInv, CallsHeld, OneCallEach, Permitted, ResponsesInv;
  }

  // ---------------------------------------------------------------- every run

  /** Every step of every client, of storage and of EC2 keeps the invariant. */
  lemma StepKeeps(s: State, e: Event, t: State)
    requires Inv(s) && Next(s, e, t)
    ensures Inv(t)
  {
    hide Inv, Started, Applied, HasRead, ConfirmedPlan, IssuedPrepared, ConfirmedPrepared, IssuedClaim, WonClaim,
         SentFleet, AllocatedOne, GotAnswer, IssuedResponse;
    match e
    case Start(c, job, policy, op) => StartKeeps(s, c, job, policy, op, t);
    case Abandon(c) => AbandonKeeps(s, c);
    case Apply(op) => ApplyKeeps(s, op, t);
    case Read(c, key, failure) => ReadKeeps(s, c, key, failure, t);
    case ConfirmPlan(c) => ConfirmKeeps(s, c, t);
    case IssuePrepared(c, op) => IssuePreparedKeeps(s, c, op, t);
    case ConfirmPrepared(c) => ConfirmKeeps(s, c, t);
    case IssueClaim(c, policy, op) => IssueClaimKeeps(s, c, policy, op, t);
    case WinClaim(c) => WinKeeps(s, c, t);
    case CreateFleet(c) => SendFleetKeeps(s, c, t);
    case Allocate(i, instance) => AllocateKeeps(s, i, instance, t);
    case Answer(c, i, out, err, sdkAttempts, response) => AnswerKeeps(s, c, i, out, err, sdkAttempts, response, t);
    case IssueResponse(c, op) => IssueResponseKeeps(s, c, op, t);
  }

  lemma {:induction false} RunKeeps(states: seq<State>, events: seq<Event>, n: nat)
    requires IsRun(states, events) && n < |states|
    ensures Inv(states[n])
  {
    hide Next;
    if n == 0 {
      assert Inv(INITIAL);
    } else {
      hide Inv;
      RunKeeps(states, events, n - 1);
      StepKeeps(states[n - 1], events[n - 1], states[n]);
    }
  }
}
