/** What the records behind a load say, field by field. */
module LoadedRecords {
  import opened Basics
  import opened LaunchTypes
  import opened Receipt
  import opened Evidence
  import opened Ledger

  /** The preparation that follows a history: the next attempt of the plan for what is missing, with the one CreateFleet
      input that belongs to it, and nothing else. */
  ghost predicate Prepares(plan: LaunchPlan, prior: seq<AttemptReceipt>, p: PreparedAttempt) {
    var a := p.attempt;
    && plan.pins.wellFormed && plan.choices != [] && plan.market in {"spot", "on-demand"} && plan.createdAt.At?
    && 1 <= a.count == plan.requestedCount - |Ids(prior)| && plan.requestedCount <= 100
    && p.request == plan.request && p.digest == PlanDigest(plan)
    && a.id == AttemptID(plan.request, LastID(prior)) && a.parent == LastID(prior)
    && a.token == ClientToken(PlanDigest(plan), a.id, a.count)
    && p.input == InputDigest(FleetInput(plan, a.id, a.token, a.count))
    && a.createdAt.At? && (prior == [] ==> a.createdAt == plan.createdAt)
    && a.state == Prepared && a.fleet == "" && a.instances == [] && a.errors == []
  }

  /** The claim of a preparation repeats its pins. */
  ghost predicate ClaimsFor(p: PreparedAttempt, c: DispatchClaim) {
    && c.request == p.request && c.attempt == p.attempt.id && c.digest == p.digest && c.input == p.input
    && c.token == p.attempt.token
  }

  /** The response to a preparation repeats its pins, reports new identities only, each with a worker of the plan, and
      keeps to the shared vocabulary. */
  ghost predicate Answers(plan: LaunchPlan, prior: seq<AttemptReceipt>, p: PreparedAttempt, r: AttemptResponse) {
    var a := r.attempt;
    && r.request == p.request && r.digest == p.digest && r.input == p.input
    && a.id == p.attempt.id && a.parent == p.attempt.parent && a.token == p.attempt.token
    && a.count == p.attempt.count && a.createdAt == p.attempt.createdAt
    && a.state in {Unknown, Complete, Rejected}
    && (a.fleet != "" ==> ValidFleetID(a.fleet)) && (a.fleet != "" && a.fleet in Fleets(prior) ==> a.state == Unknown)
    && NoDuplicates(a.instances) && (forall id | id in a.instances :: ValidInstanceID(id) && id !in Ids(prior))
    && (a.state == Complete ==> a.fleet != "" && |a.instances| <= a.count)
    && (a.state == Complete && |a.instances| < a.count ==> a.errors != [])
    && (a.state == Rejected ==> a.instances == [] && a.fleet == "" && a.errors != [])
    && (forall id :: id in a.instances <==> exists w :: w in r.workers && w.id == id)
    && (forall i, j | 0 <= i < j < |r.workers| :: r.workers[i].id != r.workers[j].id)
    && (forall w | w in r.workers ::
          && w == Worker(w.id, Some(a.id), Some(PlanDigest(plan)), w.choice, NotObserved, [])
          && (w.choice in plan.choices || (a.state == Unknown && w.choice == NO_CHOICE)))
    && forall d | d in a.errors :: Sanitised(plan, a.state, d)
  }

  /** A diagnostic that may be shared: its own standard message, at most an approved pool, and of a conflict the foreign
      Fleet identity alone. */
  ghost predicate Sanitised(plan: LaunchPlan, state: AttemptState, d: ResourceError) {
    && d.message == Standard(d.code) && !d.code.OtherDiagnostic?
    && (d.code in {FleetResponseConflict, FleetResponseIncomplete} ==> state == Unknown)
    && (d.code in {FleetPoolError, LaunchThrottled, LaunchIdentityConflict, LaunchOutcomeUnknown} ==> state != Rejected)
    && (if d.code == FleetResponseConflict then ValidFleetID(d.resource) else d.resource == "")
    && ((d.instanceType == "" && d.subnet == "")
        || (d.code != FleetResponseConflict
            && exists c :: c in plan.choices && c.instanceType == d.instanceType && c.subnet == d.subnet))
  }

  lemma SanitisedExactly(plan: LaunchPlan, state: AttemptState, d: ResourceError)
    ensures ValidDiagnostic(plan, state, d) <==> Sanitised(plan, state, d)
  {
    hide ValidFleetID;
  }

  /** A preparation is accepted exactly if its history is bounded and it is the one the history calls for. */
  lemma PreparesExactly(plan: LaunchPlan, prior: seq<AttemptReceipt>, p: PreparedAttempt)
    requires ValidRequest(plan.request)
    ensures ValidPrepared(History(plan, prior), p) <==> TerminalChain(plan, prior) && Prepares(plan, prior, p)
  {
    hide TerminalChain, ValidRequest;
    ReceiptAppend(History(plan, prior), p.attempt);
  }

  lemma SomethingMore(a: set<string>, b: set<string>)
    requires |a| < |b|
    ensures exists x :: x in b && x !in a
  {
    if b <= a {
      SubsetSize(b, a);
    }
  }

  /** Two lists of the same names without repetitions are equally long. */
  lemma SameSize(r: AttemptResponse)
    requires NoDuplicates(r.attempt.instances)
    ensures (forall i, j | 0 <= i < j < |r.workers| :: r.workers[i].id != r.workers[j].id)
            <==> NoDuplicates(WorkerIds(r.workers))
    ensures forall id :: id in WorkerIds(r.workers) <==> exists w :: w in r.workers && w.id == id
    ensures NoDuplicates(WorkerIds(r.workers)) && (forall id | id in r.attempt.instances :: id in WorkerIds(r.workers))
            ==> (|r.workers| == |r.attempt.instances| <==>
                   forall w | w in r.workers :: w.id in r.attempt.instances)
  {
    var ids, names := r.attempt.instances, WorkerIds(r.workers);
    forall id | id in names
      ensures exists w :: w in r.workers && w.id == id
    {
      var i :| 0 <= i < |names| && names[i] == id;
      assert r.workers[i] in r.workers;
    }
    forall w | w in r.workers
      ensures w.id in names
    {
      var i :| 0 <= i < |r.workers| && r.workers[i] == w;
      assert names[i] == w.id;
    }
    if NoDuplicates(names) && forall id | id in ids :: id in names {
      NoDuplicatesSize(ids);
      NoDuplicatesSize(names);
      assert Elems(ids) <= Elems(names);
      SubsetSize(Elems(ids), Elems(names));
      if |names| == |ids| {
        assert forall w | w in r.workers :: w.id in Elems(names);
      } else {
        SomethingMore(Elems(ids), Elems(names));
      }
    }
  }

  lemma AnswersExactly(plan: LaunchPlan, prior: seq<AttemptReceipt>, p: PreparedAttempt, r: AttemptResponse)
    requires HeaderValid(History(plan, prior)) && TerminalChain(plan, prior) && Prepares(plan, prior, p)
    ensures ValidResponse(History(plan, prior), p, r) <==> Answers(plan, prior, p, r)
  {
    hide TerminalChain, ValidRequest, ValidDiagnostic, Sanitised, ValidFleetID, ValidInstanceID, Ids, Fleets;
    ReceiptAppend(History(plan, prior), r.attempt);
    if NoDuplicates(r.attempt.instances) {
      SameSize(r);
    }
    forall d | d in r.attempt.errors
      ensures ValidDiagnostic(plan, r.attempt.state, d) <==> Sanitised(plan, r.attempt.state, d)
    {
      SanitisedExactly(plan, r.attempt.state, d);
    }
  }

  // ---------------------------------------------------------------- the result of a load

  ghost predicate ClaimGood(v: View, p: PreparedAttempt) {
    match Look(v, AttemptKey(p.attempt.id, DispatchKind))
    case Found(ClaimRecord(c)) => ClaimsFor(p, c)
    case _ => false
  }

  ghost predicate ResponseGood(v: View, plan: LaunchPlan, prior: seq<AttemptReceipt>, p: PreparedAttempt) {
    match Look(v, AttemptKey(p.attempt.id, ResponseKind))
    case Found(ResponseRecord(r)) => Answers(plan, prior, p, r)
    case _ => false
  }

  /** The snapshot holds exactly the records of its attempt at `k` that are good, and its state is what they stand for:
      a response without a claim proves nothing but its identities. */
  ghost predicate Kept(v: View, s: Snapshot, k: nat)
    requires k < |s.receipt.attempts|
  {
    var a, prior := s.receipt.attempts[k], s.receipt.attempts[..k];
    && a.id == AttemptID(s.receipt.plan.request, LastID(prior)) && a.id in s.prepared
    && var p := s.prepared[a.id];
       && Look(v, AttemptKey(a.id, PreparedKind)) == Found(PreparedRecord(p)) && Prepares(s.receipt.plan, prior, p)
       && (a.id in s.claims <==> ClaimGood(v, p))
       && (a.id in s.claims ==> Look(v, AttemptKey(a.id, DispatchKind)) == Found(ClaimRecord(s.claims[a.id])))
       && (a.id in s.responses <==> ResponseGood(v, s.receipt.plan, prior, p))
       && (a.id in s.responses ==> Look(v, AttemptKey(a.id, ResponseKind)) == Found(ResponseRecord(s.responses[a.id])))
       && a == if a.id in s.responses then
                 (if a.id in s.claims then s.responses[a.id].attempt else s.responses[a.id].attempt.(state := Unknown))
               else p.attempt.(state := if a.id in s.claims then Dispatched else Prepared)
  }

  /** What is wrong with the claim and the response of a preparation; the response is looked at first. */
  ghost function AttemptTrouble(v: View, plan: LaunchPlan, prior: seq<AttemptReceipt>, p: PreparedAttempt)
    : Option<LedgerError> {
    var claim := Look(v, AttemptKey(p.attempt.id, DispatchKind));
    match Look(v, AttemptKey(p.attempt.id, ResponseKind))
    case Found(_) =>
      if !ResponseGood(v, plan, prior, p) || claim == Failed(NotFound) then Some(Corrupt)
      else if claim.Failed? then Some(claim.error) else if ClaimGood(v, p) then None else Some(Corrupt)
    case Failed(e) =>
      if e != NotFound then Some(e)
      else if claim == Failed(NotFound) || ClaimGood(v, p) then None
      else if claim.Failed? then Some(claim.error) else Some(Corrupt)
  }

  /** What is wrong with the slot behind a history: nothing is only wrong with a claim or a response left alone. */
  ghost function SlotTrouble(v: View, plan: LaunchPlan, attempts: seq<AttemptReceipt>): Option<LedgerError> {
    var id := AttemptID(plan.request, LastID(attempts));
    match Look(v, AttemptKey(id, PreparedKind))
    case Found(_) => Some(Corrupt)
    case Failed(e) =>
      if e != NotFound then Some(e)
      else
        match Look(v, AttemptKey(id, DispatchKind))
        case Found(_) => Some(Corrupt)
        case Failed(e) =>
          if e != NotFound then Some(e)
          else
            match Look(v, AttemptKey(id, ResponseKind))
            case Found(_) => Some(Corrupt)
            case Failed(e) => if e == NotFound then None else Some(e)
  }

  /** The slot behind a history holds the preparation that the history calls for, within the limit on attempts. */
  ghost predicate Continues(v: View, plan: LaunchPlan, attempts: seq<AttemptReceipt>) {
    && |attempts| < 256
    && match Look(v, AttemptKey(AttemptID(plan.request, LastID(attempts)), PreparedKind))
       case Found(PreparedRecord(p)) =>
         TerminalChain(plan, attempts) && Prepares(plan, attempts, p)
       case _ => false
  }

  /** What is wrong with the claim and the response of the attempt at `k`. */
  ghost function Trouble(v: View, s: Snapshot, k: nat): Option<LedgerError>
    requires k < |s.receipt.attempts|
  {
    var id := s.receipt.attempts[k].id;
    if id in s.prepared then AttemptTrouble(v, s.receipt.plan, s.receipt.attempts[..k], s.prepared[id]) else None
  }

  /** The snapshot keeps the records of its attempts, and no others. */
  ghost predicate Keeps(v: View, s: Snapshot) {
    && s.receipt == BatchReceipt(s.receipt.plan.request, s.receipt.plan, PlanDigest(s.receipt.plan), s.receipt.attempts)
    && (forall k | 0 <= k < |s.receipt.attempts| :: Kept(v, s, k))
    && (forall id | id in s.prepared || id in s.claims || id in s.responses ::
          exists k :: 0 <= k < |s.receipt.attempts| && s.receipt.attempts[k].id == id)
  }

  /** The result of reading a chain: it goes on as long as the records are right, keeps what it has read, and reports
      the first thing that is wrong. */
  ghost predicate Exact(v: View, s: Snapshot, error: Option<LedgerError>) {
    var plan, attempts := s.receipt.plan, s.receipt.attempts;
    && Keeps(v, s) && (forall k | 0 <= k < |attempts| - 1 :: Trouble(v, s, k).None?)
    && if attempts != [] && Trouble(v, s, |attempts| - 1).Some? then error == Trouble(v, s, |attempts| - 1)
       else !Continues(v, plan, attempts) && error == SlotTrouble(v, plan, attempts)
  }

  /** A plan that may be launched. */
  ghost predicate Launchable(plan: LaunchPlan) {
    && ValidRequest(plan.request) && plan.pins.wellFormed && plan.choices != [] && plan.market in {"spot", "on-demand"}
    && 1 <= plan.requestedCount <= 100 && plan.createdAt.At?
  }

  lemma LaunchableExactly(plan: LaunchPlan)
    ensures ValidPlan(plan) <==> Launchable(plan)
  {
  }

  /** What `Prepare` asks of its caller: the last attempt of the receipt is the preparation that the attempts before it,
      all bounded, call for. */
  lemma MayPrepareExactly(r: BatchReceipt, p: PreparedAttempt, policy: string)
    requires r.attempts != []
    ensures var prior := r.attempts[..|r.attempts| - 1];
            MayPrepare(r, p, policy) <==>
              && Launchable(r.plan) && r.plan.policy == policy && r.request == r.plan.request
              && r.digest == PlanDigest(r.plan) && |r.attempts| <= 256 && r.attempts[|prior|] == p.attempt
              && TerminalChain(r.plan, prior) && Prepares(r.plan, prior, p)
  {
    hide Launchable, ValidPlan, Prepares, ValidPrepared, TerminalChain;
    var prior := r.attempts[..|r.attempts| - 1];
    LaunchableExactly(r.plan);
    assert r.attempts == prior + [r.attempts[|prior|]];
    assert r.(attempts := prior).(attempts := prior + [p.attempt]) == r.(attempts := prior + [p.attempt]);
    if r.request == r.plan.request && r.digest == PlanDigest(r.plan) && ValidRequest(r.request) {
      PreparesExactly(r.plan, prior, p);
      assert r.(attempts := prior) == History(r.plan, prior);
      if ValidPrepared(r.(attempts := prior), p) && r.attempts[|prior|] == p.attempt {
        ClaimedFits(r.(attempts := prior), p);
      }
    }
    LaunchableRequest(r.plan);
  }

  lemma LaunchableRequest(plan: LaunchPlan)
    ensures Launchable(plan) ==> ValidRequest(plan.request)
  {
  }

  lemma {:induction false} KeptDepth(v: View, s: Snapshot, k: nat)
    requires Keeps(v, s) && k < |s.receipt.attempts|
    ensures Depth(s.receipt.attempts[k].id) == k + 1
  {
    hide Prepares, ClaimGood, ResponseGood;
    assert Kept(v, s, k);
    if k > 0 {
      KeptDepth(v, s, k - 1);
      assert s.receipt.attempts[..k][k - 1] == s.receipt.attempts[k - 1];
    }
  }

  lemma SlotDepth(v: View, s: Snapshot, id: AttemptID)
    requires Keeps(v, s) && id.parent == LastID(s.receipt.attempts)
    ensures Depth(id) == |s.receipt.attempts| + 1
  {
    hide Keeps;
    if s.receipt.attempts != [] {
      KeptDepth(v, s, |s.receipt.attempts| - 1);
    }
  }

  /** The slot behind the history of a snapshot is in none of its maps. */
  lemma SlotFree(v: View, s: Snapshot, id: AttemptID)
    requires Keeps(v, s) && id.parent == LastID(s.receipt.attempts)
    ensures forall k | 0 <= k < |s.receipt.attempts| :: s.receipt.attempts[k].id != id
    ensures id !in s.prepared && id !in s.claims && id !in s.responses
  {
    hide Kept;
    SlotDepth(v, s, id);
    forall k | 0 <= k < |s.receipt.attempts|
      ensures s.receipt.attempts[k].id != id
    {
      KeptDepth(v, s, k);
    }
  }

  /** A snapshot with one attempt more, of which it keeps the good records. */
  ghost predicate OneMore(v: View, s: Snapshot, t: Snapshot, id: AttemptID, p: PreparedAttempt) {
    && t.receipt == s.receipt.(attempts := t.receipt.attempts) && |t.receipt.attempts| == |s.receipt.attempts| + 1
    && s.receipt.attempts == t.receipt.attempts[..|s.receipt.attempts|]
    && t.prepared == s.prepared[id := p]
    && (forall x | x != id :: (x in t.claims <==> x in s.claims) && (x in s.claims ==> t.claims[x] == s.claims[x]))
    && (forall x | x != id ::
          (x in t.responses <==> x in s.responses) && (x in s.responses ==> t.responses[x] == s.responses[x]))
    && t.receipt.attempts[|s.receipt.attempts|].id == id
  }

  lemma KeptStays(v: View, s: Snapshot, t: Snapshot, id: AttemptID, p: PreparedAttempt, k: nat)
    requires OneMore(v, s, t, id, p) && k < |s.receipt.attempts| && s.receipt.attempts[k].id != id && Kept(v, s, k)
    ensures Kept(v, t, k) && Trouble(v, t, k) == Trouble(v, s, k)
  {
    hide Prepares, ClaimGood, ResponseGood, AttemptTrouble;
    assert t.receipt.attempts[k] == s.receipt.attempts[k] && t.receipt.attempts[..k] == s.receipt.attempts[..k];
  }

  lemma KeepsMore(v: View, s: Snapshot, t: Snapshot, id: AttemptID, p: PreparedAttempt)
    requires Keeps(v, s) && id.parent == LastID(s.receipt.attempts) && OneMore(v, s, t, id, p)
    requires Kept(v, t, |s.receipt.attempts|)
    ensures Keeps(v, t)
    ensures forall k | 0 <= k < |s.receipt.attempts| :: Trouble(v, t, k) == Trouble(v, s, k)
  {
    hide Prepares, ClaimGood, ResponseGood, AttemptTrouble, Kept;
    SlotFree(v, s, id);
    var n := |s.receipt.attempts|;
    forall k | 0 <= k < n
      ensures Kept(v, t, k) && Trouble(v, t, k) == Trouble(v, s, k)
    {
      KeptStays(v, s, t, id, p, k);
    }
    forall x | x in t.prepared || x in t.claims || x in t.responses
      ensures exists k :: 0 <= k < n + 1 && t.receipt.attempts[k].id == x
    {
      if x == id {
        assert t.receipt.attempts[n].id == x;
      } else {
        var k :| 0 <= k < n && s.receipt.attempts[k].id == x;
        assert t.receipt.attempts[k].id == x;
      }
    }
  }

  /** The checks of the loop are what is said here of the records. */
  lemma ChecksAre(v: View, s: Snapshot, p: PreparedAttempt)
    requires HeaderValid(s.receipt) && TerminalChain(s.receipt.plan, s.receipt.attempts)
    requires Prepares(s.receipt.plan, s.receipt.attempts, p)
    ensures var id := p.attempt.id;
            && (ReadClaim(v, p, id).Ok? <==> ClaimGood(v, p))
            && (ReadResponse(v, id).Ok? && ValidResponse(s.receipt, p, ReadResponse(v, id).value) <==>
                  ResponseGood(v, s.receipt.plan, s.receipt.attempts, p))
  {
    hide Prepares, Answers, TerminalChain, ValidResponse, HeaderValid;
    Header(s);
    match Look(v, AttemptKey(p.attempt.id, ResponseKind)) {
      case Found(ResponseRecord(r)) => AnswersExactly(s.receipt.plan, s.receipt.attempts, p, r);
      case _ =>
    }
  }

  lemma AttemptMore(v: View, s: Snapshot, id: AttemptID, p: PreparedAttempt)
    requires p.attempt.id == id
    requires ReadResponse(v, id).Ok? && ValidResponse(s.receipt, p, ReadResponse(v, id).value) ==>
               ReadResponse(v, id).value.attempt.id == id
    ensures OneMore(v, s, LoadAttempt(v, s, id, p).snapshot, id, p)
  {
    hide ReadClaim, ReadResponse, ValidResponse;
    var t := LoadAttempt(v, s, id, p).snapshot;
    assert t.receipt.attempts[..|s.receipt.attempts|] == s.receipt.attempts;
  }

  lemma AttemptKept(v: View, s: Snapshot, id: AttemptID, p: PreparedAttempt)
    requires id == AttemptID(s.receipt.plan.request, LastID(s.receipt.attempts))
    requires id !in s.claims && id !in s.responses && OneMore(v, s, LoadAttempt(v, s, id, p).snapshot, id, p)
    requires Look(v, AttemptKey(id, PreparedKind)) == Found(PreparedRecord(p)) && p.attempt.id == id
    requires Prepares(s.receipt.plan, s.receipt.attempts, p)
    requires ReadClaim(v, p, id).Ok? <==> ClaimGood(v, p)
    requires ReadResponse(v, id).Ok? && ValidResponse(s.receipt, p, ReadResponse(v, id).value) <==>
               ResponseGood(v, s.receipt.plan, s.receipt.attempts, p)
    ensures Kept(v, LoadAttempt(v, s, id, p).snapshot, |s.receipt.attempts|)
  {
    hide Answers, ValidResponse, ClaimsFor;
  }

  /** One attempt of the loop reports what is wrong with its claim and response. */
  lemma AttemptReports(v: View, s: Snapshot, id: AttemptID, p: PreparedAttempt)
    requires p.attempt.id == id && (ReadClaim(v, p, id).Ok? <==> ClaimGood(v, p))
    requires ReadResponse(v, id).Ok? && ValidResponse(s.receipt, p, ReadResponse(v, id).value) <==>
               ResponseGood(v, s.receipt.plan, s.receipt.attempts, p)
    ensures LoadAttempt(v, s, id, p).error == AttemptTrouble(v, s.receipt.plan, s.receipt.attempts, p)
  {
    hide Answers, ValidResponse, ClaimsFor;
  }

  /** One attempt of the loop keeps what is good of it and reports what is wrong. */
  lemma AttemptExact(v: View, s: Snapshot, id: AttemptID, p: PreparedAttempt)
    requires Keeps(v, s) && id == AttemptID(s.receipt.plan.request, LastID(s.receipt.attempts))
    requires Look(v, AttemptKey(id, PreparedKind)) == Found(PreparedRecord(p)) && p.attempt.id == id
    requires HeaderValid(s.receipt) && TerminalChain(s.receipt.plan, s.receipt.attempts)
    requires Prepares(s.receipt.plan, s.receipt.attempts, p)
    ensures var r := LoadAttempt(v, s, id, p);
            && OneMore(v, s, r.snapshot, id, p) && Kept(v, r.snapshot, |s.receipt.attempts|)
            && r.error == AttemptTrouble(v, s.receipt.plan, s.receipt.attempts, p)
  {
    hide Prepares, Keeps, TerminalChain, HeaderValid, Kept, LoadAttempt, AttemptTrouble, OneMore, ReadClaim,
         ReadResponse, ClaimGood, ResponseGood, ValidReceipt, ValidDiagnostic, ValidWorker, ValidFleetID;
    SlotFree(v, s, id);
    ChecksAre(v, s, p);
    AttemptMore(v, s, id, p);
    AttemptKept(v, s, id, p);
    AttemptReports(v, s, id, p);
  }

  /** The rest of a load from a snapshot without trouble. */
  lemma {:induction false} ChainExact(v: View, s: Snapshot, n: nat)
    requires Keeps(v, s) && n == |s.receipt.attempts| <= 256 && HeaderValid(s.receipt)
    requires forall k | 0 <= k < n :: Trouble(v, s, k).None?
    ensures var r := LoadChain(v, s, LastID(s.receipt.attempts), n);
            Exact(v, r.snapshot, r.error) && r.snapshot.receipt.plan == s.receipt.plan
    decreases 256 - n
  {
    hide Prepares, Keeps, TerminalChain, ValidPrepared, LoadAttempt, AttemptTrouble, Kept, HeaderValid, OneMore;
    var plan, attempts := s.receipt.plan, s.receipt.attempts;
    var id := AttemptID(plan.request, LastID(attempts));
    Header(s);
    if n > 0 {
      assert Trouble(v, s, n - 1).None?;
    }
    match Look(v, AttemptKey(id, PreparedKind)) {
      case Found(PreparedRecord(p)) =>
        PreparesExactly(plan, attempts, p);
        PreparedID(plan, attempts, p);
        if n < 256 && ValidPrepared(s.receipt, p) {
          AttemptExact(v, s, id, p);
          var next := LoadAttempt(v, s, id, p);
          KeepsMore(v, s, next.snapshot, id, p);
          LastTrouble(v, s, next.snapshot, id, p);
          SameHeader(v, s, next.snapshot, id, p);
          if next.error.None? {
            Header(next.snapshot);
            ChainExact(v, next.snapshot, n + 1);
          }
        }
      case _ =>
    }
  }

  lemma PreparedID(plan: LaunchPlan, prior: seq<AttemptReceipt>, p: PreparedAttempt)
    ensures Prepares(plan, prior, p) ==> p.attempt.id == AttemptID(plan.request, LastID(prior))
  {
  }

  lemma Header(s: Snapshot)
    requires HeaderValid(s.receipt)
    ensures s.receipt == History(s.receipt.plan, s.receipt.attempts) && ValidRequest(s.receipt.plan.request)
    ensures forall t: Snapshot | t.receipt == s.receipt.(attempts := t.receipt.attempts) :: HeaderValid(t.receipt)
  {
  }

  lemma SameHeader(v: View, s: Snapshot, t: Snapshot, id: AttemptID, p: PreparedAttempt)
    requires OneMore(v, s, t, id, p)
    ensures t.receipt == s.receipt.(attempts := t.receipt.attempts) && |t.receipt.attempts| == |s.receipt.attempts| + 1
    ensures t.receipt.plan == s.receipt.plan
  {
  }

  lemma LastTrouble(v: View, s: Snapshot, t: Snapshot, id: AttemptID, p: PreparedAttempt)
    requires OneMore(v, s, t, id, p)
    ensures Trouble(v, t, |s.receipt.attempts|) == AttemptTrouble(v, s.receipt.plan, s.receipt.attempts, p)
    ensures LastID(t.receipt.attempts) == Some(id)
  {
  }

  /** A load, whatever the view: it needs the plan of the request, one that may be launched; then it keeps every good
      record up to the first thing that is wrong, and reports that. */
  lemma LoadedExactly(v: View, request: string)
    ensures var r := LoadFrom(v, request);
            if !ValidRequest(request) then r == NoPlan(Corrupt)
            else
              match Look(v, PlanKey(request))
              case Failed(e) => r == NoPlan(e)
              case Found(PlanRecord(plan)) =>
                if plan.request == request && Launchable(plan) then
                  r.Loaded? && r.snapshot.receipt.plan == plan && Exact(v, r.snapshot, r.error)
                else r == NoPlan(Corrupt)
              case Found(_) => r == NoPlan(Corrupt)
  {
    hide Exact, ValidPlan, Launchable, ValidRequest, LoadChain;
    match Look(v, PlanKey(request)) {
      case Found(PlanRecord(plan)) =>
        LaunchableExactly(plan);
        if Launchable(plan) {
          NothingKept(v, plan);
          ChainExact(v, EmptySnapshot(plan), 0);
        }
      case _ =>
    }
  }

  lemma NothingKept(v: View, plan: LaunchPlan)
    requires Launchable(plan)
    ensures Keeps(v, EmptySnapshot(plan)) && HeaderValid(EmptySnapshot(plan).receipt)
  {
  }
}
