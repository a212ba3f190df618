/** What the shared ledger accepts as a prepared attempt, a dispatch claim and a response. */
module Evidence {
  import opened Basics
  import opened LaunchTypes
  import opened Receipt
  import opened Fleet

  function History(plan: LaunchPlan, attempts: seq<AttemptReceipt>): BatchReceipt {
    BatchReceipt(plan.request, plan, Digest(plan), attempts)
  }

  predicate ValidPrepared(r: BatchReceipt, p: PreparedAttempt) {
    && p.request == r.request && p.digest == r.digest
    && p.attempt.state == Prepared && p.attempt.fleet == "" && p.attempt.instances == [] && p.attempt.errors == []
    && (p.attempt.parent.None? ==> p.attempt.createdAt == r.plan.createdAt)
    && BuildFleetInput(r.plan, p.attempt).Some? && p.input == InputDigest(BuildFleetInput(r.plan, p.attempt).value)
    && ValidReceipt(r.(attempts := r.attempts + [p.attempt]))
  }

  function ExpectedClaim(p: PreparedAttempt): DispatchClaim {
    DispatchClaim(p.request, p.attempt.id, p.digest, p.input, p.attempt.token)
  }

  /** Diagnostics a shared record may carry: the allocator's own vocabulary, tied to no arbitrary text. */
  predicate ValidDiagnostic(plan: LaunchPlan, state: AttemptState, d: ResourceError) {
    if d.code == FleetResponseConflict then
      state == Unknown && ValidFleetID(d.resource) && d.instanceType == "" && d.subnet == ""
      && d.message == Standard(d.code)
    else
      && d.message == Standard(d.code) && d.resource == ""
      && match d.code {
           case FleetPoolError => state != Rejected
           case FleetResponseIncomplete => state == Unknown
           case OtherDiagnostic(_) => false
           case LaunchThrottled | LaunchIdentityConflict | LaunchOutcomeUnknown => state != Rejected
           case _ => true
         }
      && ((d.instanceType == "" && d.subnet == "")
          || exists c | c in plan.choices :: d.instanceType == c.instanceType && d.subnet == c.subnet)
  }

  /** A reported worker carries the plan's pins and an approved pool; only unbounded evidence may lack a pool. */
  predicate ValidWorker(plan: LaunchPlan, a: AttemptReceipt, w: Worker) {
    && ((w.choice == NO_CHOICE && a.state == Unknown) || w.choice in plan.choices)
    && w == FleetWorker(plan, a.id, w.id, w.choice)
  }

  predicate ValidResponse(r: BatchReceipt, p: PreparedAttempt, response: AttemptResponse) {
    var a := response.attempt;
    && response.request == p.request && response.digest == p.digest && response.input == p.input
    && (a.state == Unknown || a.state == Complete || a.state == Rejected)
    && (a.fleet != "" ==> ValidFleetID(a.fleet))
    && a.(state := Prepared, fleet := "", instances := [], errors := []) == p.attempt
    && ValidReceipt(r.(attempts := r.attempts + [a]))
    && |response.workers| == |a.instances|
    && NoDuplicates(WorkerIds(response.workers))
    && (forall w | w in response.workers :: ValidWorker(r.plan, a, w))
    && (forall id | id in a.instances :: id in WorkerIds(response.workers))
    && (a.state == Complete && |a.instances| < a.count ==> a.errors != [])
    && (a.state == Rejected ==> a.errors != [])
    && (forall d | d in a.errors :: ValidDiagnostic(r.plan, a.state, d))
  }

  function WorkerIds(workers: seq<Worker>): (ids: seq<string>)
    ensures |ids| == |workers|
    ensures forall i | 0 <= i < |workers| :: ids[i] == workers[i].id
  {
    seq(|workers|, i requires 0 <= i < |workers| => workers[i].id)
  }

  /** The response one dispatch builds: a rejection counts only when the SDK sent exactly one request. */
  ghost predicate ResponseOf(p: PreparedAttempt, out: Option<FleetOutput>, err: Option<CallError>, sdkAttempts: nat,
                             response: AttemptResponse) {
    exists normal: AttemptReceipt ::
      && Normalized(p.digest.plan, p.attempt, out, err, normal, response.workers)
      && response == AttemptResponse(p.request, p.digest, p.input, Downgraded(normal, sdkAttempts), response.workers)
  }

  ghost function Downgraded(a: AttemptReceipt, sdkAttempts: nat): AttemptReceipt {
    if a.state == Rejected && sdkAttempts != 1 then a.(state := Unknown) else a
  }

  /** A new Fleet identity when the evidence is complete, and no identity already held by the history. */
  ghost predicate NewIdentities(prior: seq<AttemptReceipt>, a: AttemptReceipt) {
    && Elems(a.instances) !! Ids(prior)
    && (a.state == Complete ==> a.fleet !in Fleets(prior))
  }

  lemma PreparedFits(r: BatchReceipt, p: PreparedAttempt)
    requires ValidPrepared(r, p)
    ensures HeaderValid(r) && TerminalChain(r.plan, r.attempts) && Fits(r.plan, r.attempts, p.attempt)
  {
    ReceiptAppend(r, p.attempt);
  }

  lemma ClaimedFits(r: BatchReceipt, p: PreparedAttempt)
    requires ValidPrepared(r, p)
    ensures ValidReceipt(r.(attempts := r.attempts + [p.attempt]))
    ensures ValidReceipt(r.(attempts := r.attempts + [p.attempt.(state := Dispatched)]))
  {
    hide BuildFleetInput, ValidInstanceID, ValidFleetID;
    PreparedFits(r, p);
    ReceiptAppend(r, p.attempt.(state := Dispatched));
  }

  lemma ResponseValid(r: BatchReceipt, p: PreparedAttempt, response: AttemptResponse)
    requires ValidResponse(r, p, response)
    ensures ValidReceipt(r.(attempts := r.attempts + [response.attempt]))
    ensures response.attempt.id == p.attempt.id && response.attempt.createdAt == p.attempt.createdAt
    ensures response.attempt.state != Prepared && response.attempt.state != Dispatched
  {
    hide ValidReceipt, ValidDiagnostic, ValidWorker, ValidFleetID;
  }

  /** A receipt that fits its history in the prepared state fits it in any response state exactly when the
      response's own evidence does. */
  lemma ResponseFits(plan: LaunchPlan, prior: seq<AttemptReceipt>, prepared: AttemptReceipt, a: AttemptReceipt)
    requires Fits(plan, prior, prepared)
    requires a.(state := Prepared, fleet := "", instances := [], errors := []) == prepared
    requires a.state == Unknown || a.state == Complete || a.state == Rejected
    requires a.state == Rejected ==> a.instances == [] && a.fleet == ""
    requires a.fleet != "" ==> ValidFleetID(a.fleet)
    requires a.state == Complete ==> a.fleet != ""
    requires |a.instances| > a.count ==> a.state == Unknown
    requires Sorted(a.instances) && forall id | id in a.instances :: ValidInstanceID(id)
    ensures Fits(plan, prior, a) <==> NewIdentities(prior, a)
  {
    SortedNoDuplicates(a.instances);
  }

  lemma StandardDiagnostic(plan: LaunchPlan, state: AttemptState, e: PoolError)
    requires state == Unknown || state == Complete
    ensures ValidDiagnostic(plan, state, PoolDiagnostic(plan, e))
  {
    var c := FleetResponsePool(plan, "", "", "", e.launch).choice;
    if c != NO_CHOICE {
      assert c in plan.choices;
    }
  }

  lemma TailDiagnostic(plan: LaunchPlan, state: AttemptState, err: Option<CallError>)
    requires state == Unknown || (state == Rejected && err.Some? && FleetDiagnostic(err.value.code).definitive)
    ensures forall d | d in TailErrors(false, err) :: ValidDiagnostic(plan, state, d)
  {
  }

  lemma KnownIdsValid(plan: LaunchPlan, attempt: AttemptReceipt, out: Option<FleetOutput>)
    ensures forall id | id in KnownIds(plan, attempt, out) :: ValidInstanceID(id)
  {
  }

  lemma {:induction false} ChoiceFromEntry(es: seq<Entry>, id: string)
    requires id in ListedIds(es)
    ensures exists e :: e in es && e.id == id && ChoiceOf(es, id) == e.choice
  {
    var init := es[..|es| - 1];
    if id in ListedIds(init) {
      ChoiceFromEntry(init, id);
      var e :| e in init && e.id == id && ChoiceOf(init, id) == e.choice;
      assert e in es;
    } else {
      assert es == init + [es[|es| - 1]];
      assert es[|es| - 1] in es;
    }
  }

  lemma {:induction false} EntryChoice(plan: LaunchPlan, groups: seq<Group>, e: Entry)
    requires e in Entries(plan, groups)
    ensures e.choice == NO_CHOICE || e.choice in plan.choices
    ensures (forall g | g in groups :: GroupClean(plan, g)) ==> e.choice in plan.choices
  {
    var init, last := groups[..|groups| - 1], groups[|groups| - 1];
    if e in Entries(plan, init) {
      EntryChoice(plan, init, e);
    } else {
      var k :| 0 <= k < |last.ids| && GroupEntries(plan, last)[k] == e;
      assert e.choice == GroupPool(plan, last).choice;
      assert last in groups;
    }
  }

  /** Where an entry of an answer comes from. */
  lemma {:induction false} EntrySource(plan: LaunchPlan, groups: seq<Group>, e: Entry)
    requires e in Entries(plan, groups)
    ensures exists g :: g in groups && e.id in g.ids && e.choice == GroupPool(plan, g).choice
  {
    hide GroupPool;
    var init, last := groups[..|groups| - 1], groups[|groups| - 1];
    assert groups == init + [last];
    if e in Entries(plan, init) {
      EntrySource(plan, init, e);
      var g :| g in init && e.id in g.ids && e.choice == GroupPool(plan, g).choice;
      assert g in groups;
    } else {
      var k :| 0 <= k < |last.ids| && GroupEntries(plan, last)[k] == e;
      assert last in groups && e.id in last.ids;
    }
  }

  /** A group places its instances in a choice of the plan: the type, subnet and zone that the group reports. */
  ghost predicate PlacedBy(plan: LaunchPlan, g: Group, w: Worker) {
    && w.id in g.ids && w.choice in plan.choices
    && Agrees(w.choice, TypeOf(g.instanceType, g.launch), SubnetOf(g.subnet, g.launch), ZoneOf(g.zone, g.launch))
  }

  /** In a complete answer every worker stands where the group that lists it says, which the plan approves. */
  lemma CompletePlaced(plan: LaunchPlan, attempt: AttemptReceipt, out: Option<FleetOutput>, err: Option<CallError>,
                       r: AttemptReceipt, workers: seq<Worker>, k: nat)
    requires Normalized(plan, attempt, out, err, r, workers) && r.state == Complete && k < |workers|
    ensures exists g :: g in Groups(out) && PlacedBy(plan, g, workers[k])
  {
    hide ErrorsOf, FleetOf, Sorted, ValidFleetID, GroupPool, Distinct;
    assert Bounds(plan, attempt, out, err);
    var id := r.instances[k];
    assert id in Elems(r.instances);
    var es := Answered(plan, out);
    assert id in ListedIds(es);
    hide Bounds, Normalized, ListedIds;
    ChoiceFromEntry(es, id);
    var e :| e in es && e.id == id && ChoiceOf(es, id) == e.choice;
    EntrySource(plan, Groups(out), e);
    var g :| g in Groups(out) && e.id in g.ids && e.choice == GroupPool(plan, g).choice;
    CleanGroupPlaces(plan, attempt, out, err, g);
  }

  lemma CleanGroupPlaces(plan: LaunchPlan, attempt: AttemptReceipt, out: Option<FleetOutput>, err: Option<CallError>,
                         g: Group)
    requires Bounds(plan, attempt, out, err) && g in Groups(out)
    ensures GroupPool(plan, g).choice in plan.choices
    ensures Agrees(GroupPool(plan, g).choice, TypeOf(g.instanceType, g.launch), SubnetOf(g.subnet, g.launch),
                   ZoneOf(g.zone, g.launch))
  {
    hide Distinct, ListedIds, ValidFleetID, TypeOf, SubnetOf, ZoneOf, Agrees, Uncontradicted, ErrorClean;
  }

  lemma WorkerChoice(plan: LaunchPlan, attempt: AttemptReceipt, out: Option<FleetOutput>, err: Option<CallError>,
                     id: string)
    requires attempt.instances == [] && id in KnownIds(plan, attempt, out)
    ensures ChoiceOf(Answered(plan, out), id) == NO_CHOICE || ChoiceOf(Answered(plan, out), id) in plan.choices
    ensures Bounds(plan, attempt, out, err) ==> ChoiceOf(Answered(plan, out), id) in plan.choices
  {
    var es := Answered(plan, out);
    ChoiceFromEntry(es, id);
    var e :| e in es && e.id == id && ChoiceOf(es, id) == e.choice;
    EntryChoice(plan, Groups(out), e);
  }

  /** The diagnostics of a normalised prepared attempt are all in the shared vocabulary. */
  lemma NormalDiagnostics(plan: LaunchPlan, attempt: AttemptReceipt, out: Option<FleetOutput>, err: Option<CallError>,
                          state: AttemptState)
    requires attempt.fleet == "" && attempt.errors == []
    requires state == StateOf(plan, attempt, out, err) || state == Unknown
    ensures forall d | d in ErrorsOf(plan, attempt, out, err) :: ValidDiagnostic(plan, state, d)
  {
    hide Bounds, ValidDiagnostic, PoolDiagnostic, FleetDiagnostic, ValidFleetID;
    var pools := if out.Some? then PoolDiagnostics(plan, out.value.errors) else [];
    forall d | d in pools
      ensures ValidDiagnostic(plan, state, d)
    {
      var i :| 0 <= i < |pools| && pools[i] == d;
      StandardDiagnostic(plan, state, out.value.errors[i]);
    }
    if !Bounds(plan, attempt, out, err) {
      TailDiagnostic(plan, state, err);
    }
    assert ErrorsOf(plan, attempt, out, err) == pools + TailErrors(Bounds(plan, attempt, out, err), err);
  }

  lemma FleetIDNonEmpty(id: string)
    ensures ValidFleetID(id) ==> id != ""
  {
  }

  lemma KnownSize(plan: LaunchPlan, attempt: AttemptReceipt, out: Option<FleetOutput>, ids: seq<string>)
    requires attempt.instances == [] && Sorted(ids) && Elems(ids) == KnownIds(plan, attempt, out)
    ensures |ids| == |ListedIds(Answered(plan, out))|
    ensures KnownIds(plan, attempt, out) == {} ==> ids == []
  {
    SortedNoDuplicates(ids);
    NoDuplicatesSize(ids);
    assert Elems(ids) == ListedIds(Answered(plan, out));
    if ids != [] {
      assert ids[0] in Elems(ids);
    }
  }

  /** The parts of a normalised prepared attempt that the ledger inspects. */
  lemma NormalShape(plan: LaunchPlan, attempt: AttemptReceipt, out: Option<FleetOutput>, err: Option<CallError>,
                    a: AttemptReceipt, workers: seq<Worker>)
    requires attempt.state == Prepared && attempt.fleet == "" && attempt.instances == [] && attempt.errors == []
             && attempt.count >= 1
    requires Normalized(plan, attempt, out, err, a, workers)
    ensures a.(state := Prepared, fleet := "", instances := [], errors := []) == attempt
    ensures a.state == StateOf(plan, attempt, out, err) && a.errors == ErrorsOf(plan, attempt, out, err)
    ensures a.state == Rejected ==> a.instances == [] && a.fleet == "" && a.errors != []
    ensures a.fleet != "" ==> ValidFleetID(a.fleet)
    ensures a.state == Complete ==>
              a.fleet != "" && |a.instances| <= a.count
              && (|a.instances| < a.count ==> a.errors != [])
    ensures Sorted(a.instances) && forall id | id in a.instances :: ValidInstanceID(id)
  {
    FleetIDNonEmpty(a.fleet);
    KnownSize(plan, attempt, out, a.instances);
    hide ValidFleetID, ValidInstanceID, Distinct, GroupClean, ErrorClean, PoolDiagnostic, FleetDiagnostic, Sorted,
         KnownIds, ListedIds, Answered, ValidFleetID;
    forall id | id in a.instances
      ensures ValidInstanceID(id)
    {
      assert id in Elems(a.instances);
      KnownIdsValid(plan, attempt, out);
    }
  }

  lemma NormalWorkers(plan: LaunchPlan, attempt: AttemptReceipt, out: Option<FleetOutput>, err: Option<CallError>,
                      a: AttemptReceipt, workers: seq<Worker>, state: AttemptState)
    requires attempt.instances == [] && Normalized(plan, attempt, out, err, a, workers)
    requires state == a.state || state == Unknown
    ensures |workers| == |a.instances|
    ensures forall k | 0 <= k < |workers| :: workers[k].id == a.instances[k]
    ensures a.state != Rejected ==> forall w | w in workers :: ValidWorker(plan, a.(state := state), w)
  {
    hide ValidInstanceID, ListedIds, ErrorsOf, FleetOf;
    forall k | 0 <= k < |workers| && a.state != Rejected
      ensures ValidWorker(plan, a.(state := state), workers[k])
    {
      assert a.instances[k] in Elems(a.instances);
      WorkerChoice(plan, attempt, out, err, a.instances[k]);
    }
  }

  /** Every answer to a prepared attempt, downgraded or not, is a response the ledger accepts exactly when its
      identities are new to the history. */
  lemma NormalizedAccepted(r: BatchReceipt, p: PreparedAttempt, out: Option<FleetOutput>, err: Option<CallError>,
                           sdkAttempts: nat, response: AttemptResponse)
    requires ValidPrepared(r, p) && ResponseOf(p, out, err, sdkAttempts, response)
    ensures ValidResponse(r, p, response) <==> NewIdentities(r.attempts, response.attempt)
  {
    hide ResponseOf, TerminalChain, ValidDiagnostic, ValidWorker, ValidFleetID, ValidInstanceID, HeaderValid,
         BuildFleetInput, NewIdentities, Sorted;
    var plan := r.plan;
    PreparedFits(r, p);
    assert p.digest.plan == plan && p.attempt.count >= 1;
    var a := response.attempt;
    ResponseShape(p, out, err, sdkAttempts, response);
    ReceiptAppend(r, a);
    ResponseFits(plan, r.attempts, p.attempt, a);
    assert WorkerIds(response.workers) == a.instances;
    SortedNoDuplicates(a.instances);
  }

  lemma ResponseShape(p: PreparedAttempt, out: Option<FleetOutput>, err: Option<CallError>, sdkAttempts: nat,
                      response: AttemptResponse)
    requires p.attempt.state == Prepared && p.attempt.fleet == "" && p.attempt.instances == []
             && p.attempt.errors == [] && p.attempt.count >= 1
    requires ResponseOf(p, out, err, sdkAttempts, response)
    ensures response.request == p.request && response.digest == p.digest && response.input == p.input
    ensures var a := response.attempt;
            && a.(state := Prepared, fleet := "", instances := [], errors := []) == p.attempt
            && (a.state == Unknown || a.state == Complete || a.state == Rejected)
            && (a.state == Rejected ==> a.instances == [] && a.fleet == "" && a.errors != [])
            && (a.fleet != "" ==> ValidFleetID(a.fleet))
            && (a.state == Complete ==>
                  a.fleet != "" && |a.instances| <= a.count
                  && (|a.instances| < a.count ==> a.errors != []))
            && Sorted(a.instances) && (forall id | id in a.instances :: ValidInstanceID(id))
            && (forall d | d in a.errors :: ValidDiagnostic(p.digest.plan, a.state, d))
            && |response.workers| == |a.instances|
            && (forall k | 0 <= k < |a.instances| :: response.workers[k].id == a.instances[k])
            && (forall w | w in response.workers :: ValidWorker(p.digest.plan, a, w))
  {
    var plan := p.digest.plan;
    var normal :| Normalized(plan, p.attempt, out, err, normal, response.workers)
                  && response == AttemptResponse(p.request, p.digest, p.input, Downgraded(normal, sdkAttempts),
                                                 response.workers);
    NormalShape(plan, p.attempt, out, err, normal, response.workers);
    NormalWorkers(plan, p.attempt, out, err, normal, response.workers, response.attempt.state);
    NormalDiagnostics(plan, p.attempt, out, err, response.attempt.state);
    hide Normalized, ValidDiagnostic, ValidFleetID, ValidInstanceID, ErrorsOf, ValidWorker, Sorted;
  }
}
